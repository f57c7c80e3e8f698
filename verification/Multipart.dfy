/** Parsing of multipart/form-data bodies (`parse_multipart_form_data`). */
module Multipart {
  import opened Text
  import opened MultipartHeaders
  import opened MultipartBody

  datatype Status = Ok | Invalid(message: string)

  /** The parts are kept also when parsing stops with an error. */
  datatype Parsed = Parsed(status: Status, parts: seq<Part>)

  const DASHES: string := "--"
  const HEADER_END: string := "\r\n\r\n"

  function Delimiter(boundary: string): string { CRLF + DASHES + boundary }

  /** Transport padding after a boundary. */
  function SkipPadding(s: string): (r: string)
    ensures |r| <= |s| && r == s[|s| - |r|..]
    ensures r != "" ==> r[0] !in BLANK
    ensures forall i | 0 <= i < |s| - |r| :: s[i] in BLANK
  {
    if s != "" && s[0] in BLANK then
      var r := SkipPadding(s[1..]);
      assert s[1..][|s| - 1 - |r|..] == s[|s| - |r|..];
      r
    else s
  }

  /** What follows a boundary: the end of the form, or one part and what follows
  the next boundary. */
  datatype Next = End | Failed(message: string) | More(part: Part, rest: string)

  function NextPart(s: string, delimiter: string, maxPartBytes: nat): (r: Next)
    ensures r.More? ==> |r.rest| < |s|
  {
    if OccursAt(s, DASHES, 0) then End
    else
      match HeaderBlock(SkipPadding(s))
      case NoBlock(message) => Failed(message)
      case Block(part, content) => Content(part, content, delimiter, maxPartBytes)
  }

  datatype BlockResult = NoBlock(message: string) | Block(part: Part, content: string)

  /** The line ending of the boundary, and the headers up to the empty line. */
  function HeaderBlock(line: string): (r: BlockResult)
    ensures r.Block? ==> |r.content| < |line|
  {
    if !OccursAt(line, CRLF, 0) then NoBlock("Malformed multipart boundary.")
    else
      var block := line[2..];
      match Find(block, HEADER_END, 0)
      case None => NoBlock("Malformed multipart part headers.")
      case Some(end) =>
        match Headers(block[..end], EMPTY_PART)
        case None => NoBlock("Malformed multipart part headers.")
        case Some(part) => Block(part, block[end + 4..])
  }

  /** The content runs until the next delimiter. */
  function Content(part: Part, content: string, delimiter: string, maxPartBytes: nat): (r: Next)
    ensures r.More? ==> |r.rest| <= |content|
  {
    match Find(content, delimiter, 0)
    case None => Failed("Truncated multipart body.")
    case Some(n) =>
      if maxPartBytes > 0 && n > maxPartBytes then Failed("Maximum file size exceeded.")
      else More(part.(value := content[..n]), content[n + |delimiter|..])
  }

  function PartsFrom(s: string, delimiter: string, maxPartBytes: nat, acc: seq<Part>): Parsed
    decreases |s|
  {
    match NextPart(s, delimiter, maxPartBytes)
    case End => Parsed(Ok, acc)
    case Failed(message) => Parsed(Invalid(message), acc)
    case More(part, rest) => PartsFrom(rest, delimiter, maxPartBytes, acc + [part])
  }

  function Form(contentType: string, body: string, maxPartBytes: nat): Parsed {
    match BoundaryParam(contentType)
    case None => Parsed(Invalid("Missing or invalid boundary in Content-Type header."), [])
    case Some(boundary) =>
      var first := DASHES + boundary;
      if !OccursAt(body, first, 0) then Parsed(Invalid("Malformed multipart body."), [])
      else PartsFrom(body[|first|..], Delimiter(boundary), maxPartBytes, [])
  }

  /** The parser over the block chain computes `Form` of the joined blocks. In
  particular the loop ends and no slice ever goes back. */
  method ParseMultipartFormData(contentType: string, body: seq<string>, maxPartBytes: nat) returns (r: Parsed)
    ensures r == Form(contentType, Flatten(body), maxPartBytes)
  {
    var boundary := ParseBoundary(contentType);
    if boundary.None? {
      return Parsed(Invalid("Missing or invalid boundary in Content-Type header."), []);
    }
    var first := DASHES + boundary.value;
    var delimiter := Delimiter(boundary.value);
    var view := new BodyView(body);
    var starts := view.EqualsAt(0, first);
    if !starts {
      return Parsed(Invalid("Malformed multipart body."), []);
    }
    r := ParseParts(view, |first|, delimiter, maxPartBytes);
  }

  method ParseParts(view: BodyView, start: nat, delimiter: string, maxPartBytes: nat) returns (r: Parsed)
    requires view.Valid() && view.spans != [] && view.slicedUpto == 0 && start <= view.size && delimiter != ""
    modifies view
    ensures r == PartsFrom(view.flat[start..], delimiter, maxPartBytes, [])
  {
    hide NextPart;
    var pos := start;
    var parts: seq<Part> := [];
    while true
      invariant view.Valid() && pos <= view.size && view.slicedUpto <= pos
      invariant PartsFrom(view.flat[pos..], delimiter, maxPartBytes, parts)
             == PartsFrom(view.flat[start..], delimiter, maxPartBytes, [])
      decreases view.size - pos
    {
      var outcome, next := ParsePart(view, pos, delimiter, maxPartBytes);
      match outcome {
        case Done => return Parsed(Ok, parts);
        case Stopped(message) => return Parsed(Invalid(message), parts);
        case Got(part) =>
          parts := parts + [part];
          pos := next;
      }
    }
  }

  datatype Outcome = Done | Stopped(message: string) | Got(part: Part)

  /** One round of the loop: the part at the cursor, and the cursor behind the
  boundary that ends it. */
  method ParsePart(view: BodyView, start: nat, delimiter: string, maxPartBytes: nat)
    returns (outcome: Outcome, next: nat)
    requires view.Valid() && view.spans != [] && start <= view.size && view.slicedUpto <= start && delimiter != ""
    modifies view
    ensures view.Valid() && start <= next <= view.size && view.slicedUpto <= next
    ensures outcome.Got? ==> start < next
    ensures NextPart(view.flat[start..], delimiter, maxPartBytes)
         == (match outcome
             case Done => End
             case Stopped(message) => Failed(message)
             case Got(part) => More(part, view.flat[next..]))
  {
    hide HeaderBlock, Content, SkipPadding;
    next := start;
    OccursInRest(view.flat, DASHES, start);
    var last := view.EqualsAt(start, DASHES);
    if last {
      return Done, next;
    }
    var pos := PassPadding(view, start);
    var block, contentAt := ReadHeaders(view, pos);
    match block {
      case Stopped(message) => return Stopped(message), next;
      case Got(part) => outcome, next := ReadContent(view, contentAt, part, delimiter, maxPartBytes);
      case Done =>
    }
  }

  lemma {:induction false} PaddingStep(s: string, pos: nat)
    requires pos < |s|
    ensures SkipPadding(s[pos..]) == if s[pos] in BLANK then SkipPadding(s[pos + 1..]) else s[pos..]
  {
    assert s[pos..][1..] == s[pos + 1..];
  }

  lemma {:induction false} NoPaddingAtEnd(s: string, pos: nat)
    requires pos <= |s|
    ensures pos == |s| ==> SkipPadding(s[pos..]) == s[pos..]
  {
  }

  method PassPadding(view: BodyView, start: nat) returns (pos: nat)
    requires view.Layout() && start <= view.size
    ensures start <= pos <= view.size && view.flat[pos..] == SkipPadding(view.flat[start..])
  {
    hide SkipPadding;
    pos := start;
    view.FlatSize();
    while pos < view.size
      invariant start <= pos <= view.size
      invariant SkipPadding(view.flat[start..]) == SkipPadding(view.flat[pos..])
      invariant pos < view.size || SkipPadding(view.flat[pos..]) == view.flat[pos..]
    {
      var c := view.ByteAt(pos);
      PaddingStep(view.flat, pos);
      if c !in BLANK {
        break;
      }
      pos := pos + 1;
      NoPaddingAtEnd(view.flat, pos);
    }
  }

  method ReadHeaders(view: BodyView, start: nat) returns (r: Outcome, next: nat)
    requires view.Layout() && view.spans != [] && start <= view.size
    ensures !r.Done? && start <= next <= view.size && (r.Got? ==> start < next)
    ensures HeaderBlock(view.flat[start..])
         == (match r
             case Stopped(message) => NoBlock(message)
             case Got(part) => Block(part, view.flat[next..])
             case Done => NoBlock(""))
  {
    hide Find, Headers;
    next := start;
    ghost var flat := view.flat;
    OccursInRest(flat, CRLF, start);
    var lineEnd := view.EqualsAt(start, CRLF);
    if !lineEnd {
      return Stopped("Malformed multipart boundary."), next;
    }
    var pos := start + 2;
    assert flat[start..][2..] == flat[pos..];
    FindInRest(flat, HEADER_END, pos);
    var headerEnd := view.FindFrom(HEADER_END, pos);
    if headerEnd.None? {
      return Stopped("Malformed multipart part headers."), next;
    }
    var headers := view.CopyTo(pos, headerEnd.value - pos);
    assert flat[pos..][..headerEnd.value - pos] == headers;
    assert flat[pos..][headerEnd.value - pos + 4..] == flat[headerEnd.value + 4..];
    var part := ParsePartHeaders(headers);
    if part.None? {
      return Stopped("Malformed multipart part headers."), next;
    }
    return Got(part.value), headerEnd.value + 4;
  }

  method ReadContent(view: BodyView, start: nat, part: Part, delimiter: string, maxPartBytes: nat)
    returns (r: Outcome, next: nat)
    requires view.Valid() && start <= view.size && view.slicedUpto <= start && delimiter != ""
    modifies view
    ensures view.Valid() && !r.Done? && start <= next <= view.size && view.slicedUpto <= next
    ensures Content(part, view.flat[start..], delimiter, maxPartBytes)
         == (match r
             case Stopped(message) => Failed(message)
             case Got(filled) => More(filled, view.flat[next..])
             case Done => End)
  {
    hide Find;
    next := start;
    ghost var flat := view.flat;
    FindInRest(flat, delimiter, start);
    var nextDelimiter := view.FindFrom(delimiter, start);
    if nextDelimiter.None? {
      return Stopped("Truncated multipart body."), next;
    }
    var len := nextDelimiter.value - start;
    if maxPartBytes > 0 && len > maxPartBytes {
      return Stopped("Maximum file size exceeded."), next;
    }
    assert flat[start..][..len] == flat[start..start + len];
    assert flat[start..][len + |delimiter|..] == flat[start + len + |delimiter|..];
    var value := view.Slice(start, len);
    return Got(part.(value := value)), nextDelimiter.value + |delimiter|;
  }

  lemma {:induction false} OccursInRest(s: string, pat: string, p: nat)
    requires p <= |s|
    ensures OccursAt(s[p..], pat, 0) == OccursAt(s, pat, p)
  {
    if p + |pat| <= |s| {
      assert s[p..][0..0 + |pat|] == s[p..p + |pat|];
    }
  }
}
