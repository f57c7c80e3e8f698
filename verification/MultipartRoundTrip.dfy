/** Parsing a rendered form gives back its parts. */
module MultipartRoundTrip {
  import opened Text
  import opened MultipartHeaders
  import opened Multipart

  // ---------------------------------------------------------------------
  // Rendering (RFC 7578; section 5.1.1 of RFC 2046).

  /** Backslash before quotes and backslashes. */
  function Escape(v: string): string {
    if v == "" then ""
    else (if v[0] == '"' || v[0] == '\\' then ['\\', v[0]] else [v[0]]) + Escape(v[1..])
  }

  function Parameter(key: string, v: string): string { "; " + key + "=\"" + Escape(v) + "\"" }

  const DISPOSITION: string := "Content-Disposition"
  const CONTENT_TYPE: string := "Content-Type"

  function DispositionValue(p: Part): string {
    FORM_DATA + Parameter("name", p.name) + (if p.filename == "" then "" else Parameter("filename", p.filename))
  }

  function DispositionLine(p: Part): string { DISPOSITION + ": " + DispositionValue(p) }

  function RenderHeaders(p: Part): string {
    DispositionLine(p) + (if p.contentType == "" then "" else CRLF + CONTENT_TYPE + ": " + p.contentType)
  }

  function RenderPart(p: Part, delimiter: string): string {
    CRLF + RenderHeaders(p) + HEADER_END + p.value + delimiter
  }

  function RenderParts(parts: seq<Part>, delimiter: string): string {
    if parts == [] then "" else RenderPart(parts[0], delimiter) + RenderParts(parts[1..], delimiter)
  }

  /** The epilogue is ignored by parsers. */
  function RenderForm(boundary: string, parts: seq<Part>, epilogue: string): string {
    DASHES + boundary + RenderParts(parts, Delimiter(boundary)) + DASHES + epilogue
  }

  // ---------------------------------------------------------------------
  // What can be rendered.

  predicate NoReturn(s: string) { forall i | 0 <= i < |s| :: s[i] != '\r' }

  /** A named part whose header fields hold no carriage return, the content type
  being given without surrounding blanks. */
  predicate HeadersOk(p: Part) {
    && p.name != "" && NoReturn(p.name) && NoReturn(p.filename) && NoReturn(p.contentType)
    && (p.contentType != "" ==> p.contentType[0] !in BLANK && p.contentType[|p.contentType| - 1] !in BLANK)
  }

  predicate ValueOk(p: Part, delimiter: string, maxPartBytes: nat) {
    !Has(p.value, delimiter) && (maxPartBytes == 0 || |p.value| <= maxPartBytes)
  }

  // ---------------------------------------------------------------------
  // Parameters.

  /** Reading one character of a quoted value. */
  lemma {:induction false} UnquoteNext(c: char, tail: string)
    ensures c != '"' && c != '\\' ==> Unquote([c] + tail) == Prepend([c], Unquote(tail))
    ensures Unquote(['\\', c] + tail) == Prepend([c], Unquote(tail))
  {
    hide Prepend;
    var plain, escaped := [c] + tail, ['\\', c] + tail;
    assert plain[1..] == tail && escaped[2..] == tail;
    assert plain[0] == c && escaped[0] == '\\' && escaped[1] == c;
  }

  lemma {:induction false} UnquoteEscape(v: string, post: string)
    ensures Unquote(Escape(v) + "\"" + post) == Some((v, post))
    decreases |v|
  {
    if v == "" {
      EndOfValue(post);
    } else {
      var c, rest := v[0], v[1..];
      var front := if c == '"' || c == '\\' then ['\\', c] else [c];
      assert Escape(v) == front + Escape(rest);
      UnquoteEscape(rest, post);
      UnquoteNext(c, Escape(rest) + "\"" + post);
      hide Unquote, Escape;
      Regroup(front, Escape(rest), "\"", post);
      assert [c] + rest == v;
    }
  }

  lemma {:induction false} EndOfValue(post: string)
    ensures Unquote(Escape("") + "\"" + post) == Some(("", post))
  {
    var s := Escape("") + "\"" + post;
    assert s[0] == '"' && s[1..] == post;
  }

  lemma {:induction false} Regroup(a: string, b: string, c: string, d: string)
    ensures a + b + c + d == a + (b + c + d)
  {
  }

  /** A key and its quoted value, behind the separators. */
  lemma {:induction false} KeyValue(key: string, v: string, tail: string, part: Part)
    requires key != "" && key[0] !in SEPARATORS && forall c | c in key :: c !in KEY_STOPS
    ensures DispositionParams(key + ("=\"" + (Escape(v) + "\"" + tail)), part)
         == DispositionParams(tail, WithParam(part, key, v))
  {
    hide Unquote, Escape, WithParam, Until;
    var value := "\"" + (Escape(v) + "\"" + tail);
    var s := key + ("=\"" + (Escape(v) + "\"" + tail));
    UntilIs(key, "=\"" + (Escape(v) + "\"" + tail), KEY_STOPS);
    assert ("=\"" + (Escape(v) + "\"" + tail))[1..] == value && value[1..] == Escape(v) + "\"" + tail;
    UnquoteEscape(v, tail);
    assert s[0] == key[0];
  }

  lemma {:induction false} SkipSeparators(s: string, part: Part)
    ensures DispositionParams("; " + s, part) == DispositionParams(s, part)
  {
    hide Until, ParamValue;
    var t := ("; " + s)[1..];
    assert t == " " + s && t[1..] == s;
    assert DispositionParams(t, part) == DispositionParams(t[1..], part);
  }

  lemma {:induction false} OneParameter(key: string, v: string, tail: string, part: Part)
    requires key != "" && key[0] !in SEPARATORS && forall c | c in key :: c !in KEY_STOPS
    ensures DispositionParams(Parameter(key, v) + tail, part) == DispositionParams(tail, WithParam(part, key, v))
  {
    hide DispositionParams, Escape, WithParam;
    var s := key + ("=\"" + (Escape(v) + "\"" + tail));
    assert Parameter(key, v) + tail == "; " + s;
    SkipSeparators(s, part);
    KeyValue(key, v, tail, part);
  }

  lemma {:induction false} DispositionRoundTrip(p: Part)
    ensures Disposition(DispositionValue(p), EMPTY_PART) == Some(EMPTY_PART.(name := p.name, filename := p.filename))
  {
    hide DispositionParams, Parameter;
    var tail := if p.filename == "" then "" else Parameter("filename", p.filename);
    var s := FORM_DATA + Parameter("name", p.name) + tail;
    assert s == FORM_DATA + (Parameter("name", p.name) + tail);
    assert s[|FORM_DATA|..] == Parameter("name", p.name) + tail;
    assert StartsWith(s, FORM_DATA);
    KeysDiffer();
    OneParameter("name", p.name, tail, EMPTY_PART);
    var named := EMPTY_PART.(name := p.name);
    if p.filename != "" {
      assert tail + "" == tail;
      OneParameter("filename", p.filename, "", named);
      NoParameters(named.(filename := p.filename));
    } else {
      NoParameters(named);
    }
  }

  lemma {:induction false} NoParameters(part: Part)
    ensures DispositionParams("", part) == Some(part)
  {
  }

  lemma {:induction false} KeysDiffer()
    ensures IEquals("name", "name") && IEquals("filename", "filename") && !IEquals("filename", "name")
  {
  }

  // ---------------------------------------------------------------------
  // Header lines.

  predicate NoColon(s: string) { forall i | 0 <= i < |s| :: s[i] != ':' }

  lemma {:induction false} KeyFound(key: string, tail: string)
    requires NoColon(key)
    ensures Find(key + COLON + tail, COLON, 0) == Some(|key|)
  {
    hide Find;
    var line := key + COLON + tail;
    forall p | 0 <= p < |key| ensures !OccursAt(line, COLON, p) {
      assert line[p..p + 1][0] == key[p];
    }
    assert line[|key|..|key| + 1] == COLON;
    FindIs(line, COLON, 0, |key|);
  }

  lemma {:induction false} TrimKey(key: string)
    requires key != "" && key[0] !in BLANK && key[|key| - 1] !in BLANK
    ensures Trim(key, BLANK) == key
  {
    assert TrimLeft(key, BLANK) == key;
  }

  lemma {:induction false} TrimLeading(value: string)
    requires value != "" && value[0] !in BLANK && value[|value| - 1] !in BLANK
    ensures Trim(" " + value, BLANK) == value
  {
    OneBlank(" ", value, BLANK);
  }

  lemma {:induction false} OneBlank(gap: string, value: string, blank: set<char>)
    requires |gap| == 1 && gap[0] in blank
    requires value != "" && value[0] !in blank && value[|value| - 1] !in blank
    ensures Trim(gap + value, blank) == value
  {
    hide TrimRight;
    assert (gap + value)[0] == gap[0] && (gap + value)[1..] == value;
    assert TrimLeft(gap + value, blank) == TrimLeft(value, blank) == value;
    assert Trim(value, blank) == value;
  }

  lemma {:induction false} KeyLine(key: string, value: string)
    requires key != "" && NoColon(key) && key[0] !in BLANK && key[|key| - 1] !in BLANK
    requires value != "" && value[0] !in BLANK && value[|value| - 1] !in BLANK
    ensures var line := key + ": " + value;
      && Find(line, COLON, 0) == Some(|key|)
      && Trim(line[..|key|], BLANK) == key && Trim(line[|key| + 1..], BLANK) == value
  {
    hide Find, Trim;
    var line := key + ": " + value;
    assert line == key + COLON + (" " + value);
    KeyFound(key, " " + value);
    assert line[..|key|] == key && line[|key| + 1..] == " " + value;
    TrimKey(key);
    TrimLeading(value);
  }

  /** A header line does what its key says. */
  lemma {:induction false} KeyedLine(key: string, value: string, part: Part)
    requires key != "" && NoColon(key) && key[0] !in BLANK && key[|key| - 1] !in BLANK
    requires value != "" && value[0] !in BLANK && value[|value| - 1] !in BLANK
    ensures WithLine(key + ": " + value, part)
         == if IEquals(key, "content-disposition") then Disposition(value, part)
            else if IEquals(key, "content-type") then Some(part.(contentType := value))
            else Some(part)
  {
    hide Disposition, Find, Trim, IEquals, NoColon;
    KeyLine(key, value);
  }

  lemma {:induction false} DispositionKey()
    ensures NoColon(DISPOSITION) && |DISPOSITION| == 19
    ensures DISPOSITION[0] !in BLANK && DISPOSITION[|DISPOSITION| - 1] !in BLANK
    ensures IEquals(DISPOSITION, "content-disposition")
  {
  }

  lemma {:induction false} TypeKey()
    ensures NoColon(CONTENT_TYPE) && |CONTENT_TYPE| == 12
    ensures CONTENT_TYPE[0] !in BLANK && CONTENT_TYPE[|CONTENT_TYPE| - 1] !in BLANK
    ensures IEquals(CONTENT_TYPE, "content-type") && !IEquals(CONTENT_TYPE, "content-disposition")
  {
  }

  /** It starts with a letter and ends with a quote. */
  lemma {:induction false} DispositionEnds(p: Part)
    ensures var v := DispositionValue(p); v != "" && v[0] !in BLANK && v[|v| - 1] !in BLANK
  {
    hide Escape;
    assert FORM_DATA[0] == 'f';
  }

  lemma {:induction false} DispositionLineRead(p: Part)
    ensures WithLine(DispositionLine(p), EMPTY_PART) == Some(EMPTY_PART.(name := p.name, filename := p.filename))
  {
    DispositionRoundTrip(p);
    DispositionEnds(p);
    DispositionKey();
    hide WithLine, IEquals, Disposition, Escape, NoColon, DispositionValue;
    KeyedLine(DISPOSITION, DispositionValue(p), EMPTY_PART);
  }

  lemma {:induction false} TypeLineRead(contentType: string, part: Part)
    requires contentType != "" && contentType[0] !in BLANK && contentType[|contentType| - 1] !in BLANK
    ensures WithLine(CONTENT_TYPE + ": " + contentType, part) == Some(part.(contentType := contentType))
  {
    hide WithLine, IEquals, Disposition, NoColon;
    TypeKey();
    KeyedLine(CONTENT_TYPE, contentType, part);
  }

  lemma {:induction false} EscapeNoReturn(v: string)
    requires NoReturn(v)
    ensures NoReturn(Escape(v))
  {
    if v != "" {
      EscapeNoReturn(v[1..]);
    }
  }

  lemma {:induction false} LinesHaveNoReturn(p: Part)
    requires HeadersOk(p)
    ensures NoReturn(DispositionLine(p)) && DispositionLine(p) != "" && DispositionLine(p)[0] == 'C'
    ensures NoReturn(CONTENT_TYPE + ": " + p.contentType) && (CONTENT_TYPE + ": " + p.contentType)[0] == 'C'
  {
    EscapeNoReturn(p.name);
    EscapeNoReturn(p.filename);
    hide Escape;
    assert NoReturn(DISPOSITION) && NoReturn(FORM_DATA) && NoReturn(CONTENT_TYPE);
    assert NoReturn(Parameter("name", p.name)) && NoReturn(Parameter("filename", p.filename));
    assert DISPOSITION[0] == 'C' && CONTENT_TYPE[0] == 'C';
    hide Parameter;
    assert NoReturn(DISPOSITION + ": " + FORM_DATA);
  }

  lemma {:induction false} NoReturnNoLineEnd(s: string)
    requires NoReturn(s)
    ensures Find(s, CRLF, 0).None?
  {
    forall p | 0 <= p ensures !OccursAt(s, CRLF, p) {
      if p + 2 <= |s| {
        assert s[p..p + 2][0] == s[p];
      }
    }
  }

  lemma {:induction false} HeadersRoundTrip(p: Part)
    requires HeadersOk(p)
    ensures Headers(RenderHeaders(p), EMPTY_PART) == Some(p.(value := ""))
  {
    hide WithLine, DispositionLine, Find;
    var first := DispositionLine(p);
    LinesHaveNoReturn(p);
    DispositionLineRead(p);
    var named := EMPTY_PART.(name := p.name, filename := p.filename);
    if p.contentType == "" {
      assert RenderHeaders(p) == first;
      NoReturnNoLineEnd(first);
      assert Headers("", named) == Some(named);
    } else {
      var second := CONTENT_TYPE + ": " + p.contentType;
      assert RenderHeaders(p) == first + CRLF + second;
      NoReturnNoLineEnd(first);
      MarkerFound(first, CRLF, second);
      assert (first + CRLF + second)[..|first|] == first && (first + CRLF + second)[|first| + 2..] == second;
      TypeLineRead(p.contentType, named);
      NoReturnNoLineEnd(second);
      var full := named.(contentType := p.contentType);
      assert Headers("", full) == Some(full);
      assert Headers(second, named) == Some(full);
    }
  }

  /** The empty line that ends the headers is the first one. */
  lemma {:induction false} HeaderEndFound(p: Part, rest: string)
    requires HeadersOk(p)
    ensures Find(RenderHeaders(p) + HEADER_END + rest, HEADER_END, 0) == Some(|RenderHeaders(p)|)
  {
    hide DispositionLine, Find;
    LinesHaveNoReturn(p);
    var first, second := DispositionLine(p), CONTENT_TYPE + ": " + p.contentType;
    var h := RenderHeaders(p);
    var s := h + HEADER_END + rest;
    assert p.contentType != "" ==> h == first + CRLF + second;
    forall i | 0 <= i < |h| ensures !OccursAt(s, HEADER_END, i) {
      if i + 4 <= |s| {
        var window := s[i..i + 4];
        assert window[0] == s[i] == h[i] && window[2] == s[i + 2];
        if i == |first| && p.contentType != "" {
          assert s[i + 2] == second[0];
        }
      }
    }
    assert s[|h|..|h| + 4] == HEADER_END;
    FindIs(s, HEADER_END, 0, |h|);
  }

  // ---------------------------------------------------------------------
  // Parts.

  /** Valid boundaries hold no carriage return, so a delimiter starts only where
  its carriage return is. */
  lemma {:induction false} DelimiterIsMarker(boundary: string)
    requires IsValidBoundary(boundary)
    ensures IsMarker(Delimiter(boundary))
  {
    var d := Delimiter(boundary);
    forall k | 1 <= k < |d| ensures d[k] != '\r' {
      if k >= 4 {
        assert d[k] == boundary[k - 4];
        assert IsBoundaryChar(boundary[k - 4]);
      }
    }
  }

  lemma {:induction false} RenderedBlock(p: Part, rest: string)
    requires HeadersOk(p)
    ensures HeaderBlock(CRLF + RenderHeaders(p) + HEADER_END + rest) == Block(p.(value := ""), rest)
  {
    hide Find, Headers, RenderHeaders;
    var h := RenderHeaders(p);
    var line := CRLF + h + HEADER_END + rest;
    assert line[0..2] == CRLF;
    var block := h + HEADER_END + rest;
    assert line[2..] == block;
    HeaderEndFound(p, rest);
    HeadersRoundTrip(p);
    assert block[..|h|] == h && block[|h| + 4..] == rest;
  }

  /** One rendered part is read back when its value qualifies; otherwise reading
  fails or yields a shorter value. */
  lemma {:induction false} RenderedPart(p: Part, boundary: string, maxPartBytes: nat, rest: string)
    requires HeadersOk(p) && IsValidBoundary(boundary)
    ensures var d := Delimiter(boundary);
      var next := NextPart(RenderPart(p, d) + rest, d, maxPartBytes);
      && !next.End?
      && (ValueOk(p, d, maxPartBytes) ==> next == More(p, rest))
      && (!ValueOk(p, d, maxPartBytes) && next.More? ==> |next.part.value| < |p.value|)
  {
    hide HeaderBlock, Find, RenderHeaders, Delimiter, Has;
    var d := Delimiter(boundary);
    var content := p.value + d + rest;
    var s := RenderPart(p, d) + rest;
    assert s == CRLF + RenderHeaders(p) + HEADER_END + content;
    assert s[0] == '\r' && s[0..2][0] == '\r';
    assert SkipPadding(s) == s;
    RenderedBlock(p, content);
    DelimiterIsMarker(boundary);
    if !Has(p.value, d) {
      MarkerFound(p.value, d, rest);
      assert content[..|p.value|] == p.value && content[|p.value| + |d|..] == rest;
      assert p.(value := "").(value := p.value) == p;
    } else {
      FoundEarlier(p.value, d, rest);
    }
  }

  lemma {:induction false} FoundEarlier(value: string, d: string, rest: string)
    requires Has(value, d) && d != ""
    ensures Find(value + d + rest, d, 0).Some? && Find(value + d + rest, d, 0).value < |value|
  {
    FindGrows(value, d + rest, d, 0);
    assert value + (d + rest) == value + d + rest;
  }

  // ---------------------------------------------------------------------
  // Whole forms.

  /** Parts that have been read stay. */
  lemma {:induction false} PartsKept(s: string, d: string, maxPartBytes: nat, acc: seq<Part>)
    ensures acc <= PartsFrom(s, d, maxPartBytes, acc).parts
    decreases |s|
  {
    hide NextPart;
    var next := NextPart(s, d, maxPartBytes);
    if next.More? {
      PartsKept(next.rest, d, maxPartBytes, acc + [next.part]);
    }
  }

  lemma {:induction false} PartsRoundTrip(parts: seq<Part>, boundary: string, maxPartBytes: nat, epilogue: string,
                                          acc: seq<Part>)
    requires forall p | p in parts :: HeadersOk(p)
    requires IsValidBoundary(boundary)
    ensures var d := Delimiter(boundary);
      PartsFrom(RenderParts(parts, d) + DASHES + epilogue, d, maxPartBytes, acc) == Parsed(Ok, acc + parts)
      <==> forall p | p in parts :: ValueOk(p, d, maxPartBytes)
    decreases |parts|
  {
    hide NextPart, RenderPart, Delimiter, ValueOk, HeadersOk;
    var d := Delimiter(boundary);
    var s := RenderParts(parts, d) + DASHES + epilogue;
    if parts == [] {
      assert acc + [] == acc;
      EndOfForm(epilogue, d, maxPartBytes);
      assert s == DASHES + epilogue;
    } else {
      var p, rest := parts[0], RenderParts(parts[1..], d) + DASHES + epilogue;
      assert s == RenderPart(p, d) + rest;
      RenderedPart(p, boundary, maxPartBytes, rest);
      var next := NextPart(s, d, maxPartBytes);
      assert forall q | q in parts[1..] :: q in parts;
      if ValueOk(p, d, maxPartBytes) {
        PartsRoundTrip(parts[1..], boundary, maxPartBytes, epilogue, acc + [p]);
        assert acc + [p] + parts[1..] == acc + parts;
        assert forall q | q in parts :: q == p || q in parts[1..];
      } else if next.More? {
        PartsKept(next.rest, d, maxPartBytes, acc + [next.part]);
        assert (acc + [next.part])[|acc|] == next.part && (acc + parts)[|acc|] == p;
      }
    }
  }

  lemma {:induction false} EndOfForm(epilogue: string, d: string, maxPartBytes: nat)
    ensures NextPart(DASHES + epilogue, d, maxPartBytes) == End
  {
    assert (DASHES + epilogue)[0..2] == DASHES;
  }

  // ---------------------------------------------------------------------
  // The boundary in the Content-Type header.

  const MULTIPART: string := "multipart/form-data"

  function ContentTypeHeader(boundary: string, quoted: bool): string {
    MULTIPART + "; boundary=" + if quoted then "\"" + boundary + "\"" else boundary
  }

  lemma {:induction false} BoundaryCharsOk(b: string)
    requires IsValidBoundary(b)
    ensures forall c | c in b :: c != '"' && c != '\\' && c != ';'
  {
    forall c | c in b ensures c != '"' && c != '\\' && c != ';' {
      var i :| 0 <= i < |b| && b[i] == c;
      assert IsBoundaryChar(b[i]);
    }
  }

  lemma {:induction false} NothingToEscape(v: string)
    requires forall c | c in v :: c != '"' && c != '\\'
    ensures Escape(v) == v
  {
    if v != "" {
      assert forall c | c in v[1..] :: c in v;
      NothingToEscape(v[1..]);
      assert v[0] in v && [v[0]] + v[1..] == v;
    }
  }

  lemma {:induction false} BoundaryValue(b: string, quoted: bool)
    requires IsValidBoundary(b)
    ensures ParamValue(if quoted then "\"" + b + "\"" else b) == Some((b, ""))
  {
    BoundaryCharsOk(b);
    if quoted {
      NothingToEscape(b);
      UnquoteEscape(b, "");
      assert ("\"" + b + "\"")[1..] == b + "\"" + "";
    } else {
      assert b[0] in b;
      UntilIs(b, "", {';'});
      assert b + "" == b;
    }
  }

  /** The boundary is read back from the header, quoted or not. */
  lemma {:induction false} BoundaryRoundTrip(b: string, quoted: bool)
    requires IsValidBoundary(b)
    ensures BoundaryParam(ContentTypeHeader(b, quoted)) == Some(b)
  {
    hide ParamValue, IsValidBoundary, IEquals, Until;
    var value := if quoted then "\"" + b + "\"" else b;
    var param := "boundary" + ("=" + value);
    var rest := "; " + param;
    var s := ContentTypeHeader(b, quoted);
    assert s == MULTIPART + rest;
    MediaType();
    UntilIs(MULTIPART, rest, KEY_STOPS);
    assert s[0] == MULTIPART[0];
    assert rest[1..][1..] == param;
    var t := rest[1..];
    assert rest[0] == ';' && t[0] == ' ';
    assert BoundaryParam(s) == BoundaryParam(rest) == BoundaryParam(t) == BoundaryParam(param);
    UntilIs("boundary", "=" + value, KEY_STOPS);
    assert ("=" + value)[1..] == value;
    BoundaryValue(b, quoted);
  }

  lemma {:induction false} MediaType()
    ensures forall c | c in MULTIPART :: c !in KEY_STOPS
    ensures MULTIPART[0] == 'm' && IEquals("boundary", "boundary")
  {
  }

  /** Main result: for every valid boundary and every epilogue, parsing a rendered
  form succeeds with exactly the same parts if and only if no value holds the
  delimiter or exceeds the size limit. */
  lemma {:induction false} FormRoundTrip(boundary: string, quoted: bool, parts: seq<Part>, epilogue: string,
                                         maxPartBytes: nat)
    requires IsValidBoundary(boundary) && forall p | p in parts :: HeadersOk(p)
    ensures Form(ContentTypeHeader(boundary, quoted), RenderForm(boundary, parts, epilogue), maxPartBytes)
            == Parsed(Ok, parts)
       <==> forall p | p in parts :: ValueOk(p, Delimiter(boundary), maxPartBytes)
  {
    hide PartsFrom, RenderParts, ValueOk, HeadersOk, BoundaryParam, Delimiter, IsValidBoundary;
    BoundaryRoundTrip(boundary, quoted);
    var first := DASHES + boundary;
    var rest := RenderParts(parts, Delimiter(boundary)) + DASHES + epilogue;
    var body := RenderForm(boundary, parts, epilogue);
    assert body == first + rest;
    assert body[0..|first|] == first && body[|first|..] == rest;
    PartsRoundTrip(parts, boundary, maxPartBytes, epilogue, []);
    assert [] + parts == parts;
  }
}
