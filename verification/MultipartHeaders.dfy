/** Header parsing of multipart/form-data: parameter values, the boundary of the
Content-Type header, Content-Disposition and the header block of a part.

The functions work on the rest of the text; the methods are the loops of the
source over a cursor.
*/
module MultipartHeaders {
  import opened Text

  const CRLF: string := "\r\n"
  const COLON: string := ":"
  const BLANK: set<char> := {' ', '\t'}
  const FORM_DATA: string := "form-data"
  const MAX_BOUNDARY_LENGTH: nat := 70
  const BOUNDARY_EXTRA: string := "'()+_,-./:=?"

  datatype Part = Part(name: string, filename: string, contentType: string, value: string)

  const EMPTY_PART: Part := Part("", "", "", "")

  // ---------------------------------------------------------------------
  // Characters.

  function ToLower(c: char): char {
    if 'A' <= c <= 'Z' then (c as int + 32) as char else c
  }

  predicate IsAlnum(c: char) { '0' <= c <= '9' || 'A' <= c <= 'Z' || 'a' <= c <= 'z' }

  predicate IEquals(a: string, b: string) {
    |a| == |b| && forall i | 0 <= i < |a| :: ToLower(a[i]) == ToLower(b[i])
  }

  predicate IsBoundaryChar(c: char) { IsAlnum(c) || c in BOUNDARY_EXTRA }

  predicate IsValidBoundary(b: string) {
    0 < |b| <= MAX_BOUNDARY_LENGTH && (forall i | 0 <= i < |b| :: IsBoundaryChar(b[i])) && b[|b| - 1] != ' '
  }

  method EqualsIgnoringCase(a: string, b: string) returns (equal: bool)
    ensures equal == IEquals(a, b)
  {
    if |a| != |b| {
      return false;
    }
    for i := 0 to |a|
      invariant forall k | 0 <= k < i :: ToLower(a[k]) == ToLower(b[k])
    {
      if ToLower(a[i]) != ToLower(b[i]) {
        return false;
      }
    }
    return true;
  }

  method CheckBoundary(b: string) returns (valid: bool)
    ensures valid == IsValidBoundary(b)
  {
    if b == "" || |b| > MAX_BOUNDARY_LENGTH {
      return false;
    }
    for i := 0 to |b|
      invariant forall k | 0 <= k < i :: IsBoundaryChar(b[k])
    {
      if !IsBoundaryChar(b[i]) {
        return false;
      }
    }
    return b[|b| - 1] != ' ';
  }

  // ---------------------------------------------------------------------
  // Parameter values.

  /** The inside of a quoted string and what follows the closing quote; a
  backslash keeps the next character. `None` if the string is not closed. */
  function Unquote(s: string): (r: Option<(string, string)>)
    ensures r.Some? ==> |r.value.1| < |s|
    decreases |s|
  {
    if s == "" then None
    else if s[0] == '\\' && |s| > 1 then Prepend([s[1]], Unquote(s[2..]))
    else if s[0] == '"' then Some(("", s[1..]))
    else Prepend([s[0]], Unquote(s[1..]))
  }

  function Prepend(front: string, r: Option<(string, string)>): Option<(string, string)> {
    match r
    case None => None
    case Some((value, rest)) => Some((front + value, rest))
  }

  lemma {:induction false} PrependTwice(a: string, b: string, r: Option<(string, string)>)
    ensures Prepend(a, Prepend(b, r)) == Prepend(a + b, r)
    ensures Prepend("", r) == r
  {
    if r.Some? {
      assert a + (b + r.value.0) == a + b + r.value.0;
      assert "" + r.value.0 == r.value.0;
    }
  }

  /** The text before the first of the stop characters, and the rest. */
  function Until(s: string, stop: set<char>): (r: (string, string))
    ensures |r.1| <= |s| && (r.1 != "" ==> r.1[0] in stop) && (s != "" && s[0] !in stop ==> |r.1| < |s|)
    decreases |s|
  {
    if s == "" || s[0] in stop then ("", s)
    else
      var (front, rest) := Until(s[1..], stop);
      ([s[0]] + front, rest)
  }

  /** The value of a parameter and what follows it. */
  function ParamValue(s: string): (r: Option<(string, string)>)
    ensures r.Some? ==> |r.value.1| <= |s|
  {
    if s == "" then None
    else if s[0] == '"' then Unquote(s[1..])
    else Some(Until(s, {';'}))
  }

  /** Advances the cursor to a stop character. */
  method ScanUntil(s: string, pos: nat, stop: set<char>) returns (at: nat)
    requires pos <= |s|
    ensures pos <= at <= |s| && Until(s[pos..], stop) == (s[pos..at], s[at..])
  {
    at := pos;
    while at < |s| && s[at] !in stop
      invariant pos <= at <= |s|
      invariant forall i | pos <= i < at :: s[i] !in stop
    {
      at := at + 1;
    }
    UntilIs(s[pos..at], s[at..], stop);
    assert s[pos..at] + s[at..] == s[pos..];
  }

  lemma {:induction false} UntilIs(front: string, rest: string, stop: set<char>)
    requires forall c | c in front :: c !in stop
    requires rest == "" || rest[0] in stop
    ensures Until(front + rest, stop) == (front, rest)
    decreases |front|
  {
    if front == "" {
      assert front + rest == rest;
    } else {
      var tail := front[1..];
      assert forall c | c in tail :: c in front;
      assert (front + rest)[1..] == tail + rest;
      UntilIs(tail, rest, stop);
      assert [front[0]] + tail == front;
    }
  }

  /** `parse_param_value`: the value and the cursor behind it. */
  method ParseParamValue(params: string, pos: nat) returns (r: Option<(string, nat)>)
    requires pos <= |params|
    ensures r.Some? ==> pos <= r.value.1 <= |params|
    ensures ParamValue(params[pos..])
         == (match r case None => None case Some((value, at)) => Some((value, params[at..])))
  {
    hide Unquote, Until;
    if pos >= |params| {
      return None;
    }
    assert params[pos..][1..] == params[pos + 1..];
    if params[pos] == '"' {
      r := ParseQuoted(params, pos + 1);
    } else {
      var end := ScanUntil(params, pos, {';'});
      r := Some((params[pos..end], end));
    }
  }

  /** The loop over a quoted string. */
  method ParseQuoted(params: string, pos: nat) returns (r: Option<(string, nat)>)
    requires pos <= |params|
    ensures r.Some? ==> pos <= r.value.1 <= |params|
    ensures Unquote(params[pos..])
         == (match r case None => None case Some((value, at)) => Some((value, params[at..])))
  {
    hide Prepend;
    var value, at := "", pos;
    ghost var all := Unquote(params[pos..]);
    PrependTwice("", "", all);
    while at < |params|
      invariant pos <= at <= |params|
      invariant Prepend(value, Unquote(params[at..])) == all
    {
      var c := params[at];
      ghost var rest := params[at..];
      if c == '\\' && at + 1 < |params| {
        assert rest[2..] == params[at + 2..];
        UnquoteStep(rest, params[at + 2..]);
        PrependTwice(value, [params[at + 1]], Unquote(params[at + 2..]));
        value := value + [params[at + 1]];
        at := at + 2;
      } else if c == '"' {
        assert rest[1..] == params[at + 1..];
        EndOfQuoted(value, params[at + 1..]);
        return Some((value, at + 1));
      } else {
        assert rest[1..] == params[at + 1..];
        PrependTwice(value, [c], Unquote(params[at + 1..]));
        value := value + [c];
        at := at + 1;
      }
    }
    NothingQuoted(value);
    assert params[at..] == "";
    return None;
  }

  lemma {:induction false} UnquoteStep(rest: string, tail: string)
    requires |rest| > 1 && rest[0] == '\\' && tail == rest[2..]
    ensures Unquote(rest) == Prepend([rest[1]], Unquote(tail))
  {
  }

  lemma {:induction false} EndOfQuoted(value: string, rest: string)
    ensures Prepend(value, Some(("", rest))) == Some((value, rest))
  {
    assert value + "" == value;
  }

  lemma {:induction false} NothingQuoted(value: string)
    ensures Prepend(value, Unquote("")) == None
  {
  }

  // ---------------------------------------------------------------------
  // Parameters of the two headers.

  const SEPARATORS: set<char> := {';', ' ', '\t'}
  const KEY_STOPS: set<char> := {'=', ';'}

  /** The boundary parameter of a Content-Type value, if it is there and valid. */
  function BoundaryParam(s: string): Option<string>
    decreases |s|
  {
    if s == "" then None
    else if s[0] in SEPARATORS then BoundaryParam(s[1..])
    else
      var (key, rest) := Until(s, KEY_STOPS);
      if rest == "" || rest[0] != '=' then BoundaryParam(rest)  // a valueless token
      else
        match ParamValue(rest[1..])
        case None => None
        case Some((value, more)) =>
          if IEquals(key, "boundary") then (if IsValidBoundary(value) then Some(value) else None)
          else BoundaryParam(more)
  }

  method ParseBoundary(contentType: string) returns (r: Option<string>)
    ensures r == BoundaryParam(contentType)
  {
    hide ParamValue, IEquals, IsValidBoundary, Until;
    var pos := 0;
    assert contentType[0..] == contentType;
    while pos < |contentType|
      invariant pos <= |contentType|
      invariant BoundaryParam(contentType[pos..]) == BoundaryParam(contentType)
    {
      ghost var s := contentType[pos..];
      if contentType[pos] in SEPARATORS {
        assert s[1..] == contentType[pos + 1..];
        pos := pos + 1;
        continue;
      }
      var keyEnd := ScanUntil(contentType, pos, KEY_STOPS);
      var key := contentType[pos..keyEnd];
      if keyEnd >= |contentType| || contentType[keyEnd] != '=' {
        pos := ScanUntil(contentType, keyEnd, {';'});
        UntilIs("", contentType[keyEnd..], {';'});
        assert "" + contentType[keyEnd..] == contentType[keyEnd..];
        continue;
      }
      assert contentType[keyEnd..][1..] == contentType[keyEnd + 1..];
      var param := ParseParamValue(contentType, keyEnd + 1);
      if param.None? {
        return None;
      }
      var isBoundary := EqualsIgnoringCase(key, "boundary");
      if isBoundary {
        var valid := CheckBoundary(param.value.0);
        return if valid then Some(param.value.0) else None;
      }
      pos := param.value.1;
    }
    return None;
  }

  function WithParam(part: Part, key: string, value: string): Part {
    if IEquals(key, "name") then part.(name := value)
    else if IEquals(key, "filename") then part.(filename := value)
    else part
  }

  function DispositionParams(s: string, part: Part): Option<Part>
    decreases |s|
  {
    if s == "" then Some(part)
    else if s[0] in SEPARATORS then DispositionParams(s[1..], part)
    else
      var (key, rest) := Until(s, KEY_STOPS);
      if rest == "" || rest[0] != '=' then None
      else
        match ParamValue(rest[1..])
        case None => None
        case Some((value, more)) => DispositionParams(more, WithParam(part, key, value))
  }

  /** The name and filename of a Content-Disposition value. */
  function Disposition(value: string, part: Part): Option<Part> {
    if !StartsWith(value, FORM_DATA) then None else DispositionParams(value[|FORM_DATA|..], part)
  }

  method ParseContentDisposition(value: string, part: Part) returns (r: Option<Part>)
    ensures r == Disposition(value, part)
  {
    hide Until, ParamValue, IEquals;
    if !StartsWith(value, FORM_DATA) {
      return None;
    }
    var pos, filled := |FORM_DATA|, part;
    while pos < |value|
      invariant pos <= |value|
      invariant DispositionParams(value[pos..], filled) == DispositionParams(value[|FORM_DATA|..], part)
    {
      ghost var s := value[pos..];
      if value[pos] in SEPARATORS {
        assert s[1..] == value[pos + 1..];
        pos := pos + 1;
        continue;
      }
      var keyEnd := ScanUntil(value, pos, KEY_STOPS);
      if keyEnd >= |value| || value[keyEnd] != '=' {
        return None;
      }
      var key := value[pos..keyEnd];
      assert value[keyEnd..][1..] == value[keyEnd + 1..];
      var param := ParseParamValue(value, keyEnd + 1);
      if param.None? {
        return None;
      }
      var isName := EqualsIgnoringCase(key, "name");
      var isFilename := EqualsIgnoringCase(key, "filename");
      if isName {
        filled := filled.(name := param.value.0);
      } else if isFilename {
        filled := filled.(filename := param.value.0);
      }
      pos := param.value.1;
    }
    return Some(filled);
  }

  // ---------------------------------------------------------------------
  // The header block of a part.

  /** The first line and what follows it. */
  function Line(s: string): (r: (string, string))
    ensures |r.0| <= |s| && |r.1| <= |s| && (s != "" ==> |r.1| < |s|)
  {
    match Find(s, CRLF, 0)
    case None => (s, "")
    case Some(end) => (s[..end], s[end + 2..])
  }

  function Headers(s: string, part: Part): Option<Part>
    decreases |s|
  {
    if s == "" then (if part.name != "" then Some(part) else None)
    else
      var (line, rest) := Line(s);
      match WithLine(line, part)
      case None => None
      case Some(filled) => Headers(rest, filled)
  }

  function WithLine(line: string, part: Part): Option<Part> {
    match Find(line, COLON, 0)
    case None => None
    case Some(colon) =>
      var key, value := Trim(line[..colon], BLANK), Trim(line[colon + 1..], BLANK);
      if IEquals(key, "content-disposition") then Disposition(value, part)
      else if IEquals(key, "content-type") then Some(part.(contentType := value))
      else Some(part)
  }

  /** The line at the cursor and the cursor behind its end. */
  method NextLine(headers: string, pos: nat) returns (line: string, next: nat)
    requires pos < |headers|
    ensures pos < next <= |headers|
    ensures Line(headers[pos..]) == (line, headers[next..])
  {
    hide Find;
    var s := headers[pos..];
    var lineEnd := Find(headers, CRLF, pos);
    FindInRest(headers, CRLF, pos);
    if lineEnd.Some? {
      line, next := headers[pos..lineEnd.value], lineEnd.value + 2;
      assert s[..lineEnd.value - pos] == line && s[lineEnd.value - pos + 2..] == headers[next..];
    } else {
      line, next := headers[pos..], |headers|;
      assert headers[next..] == "";
    }
  }

  method ParsePartHeaders(headers: string) returns (r: Option<Part>)
    ensures r == Headers(headers, EMPTY_PART)
  {
    hide Disposition, Line, Find, IEquals, Trim;
    var pos, part := 0, EMPTY_PART;
    assert headers[0..] == headers;
    while pos < |headers|
      invariant pos <= |headers|
      invariant Headers(headers[pos..], part) == Headers(headers, EMPTY_PART)
    {
      var line, next := NextLine(headers, pos);
      var colon := Find(line, COLON, 0);
      if colon.None? {
        return None;
      }
      var key, value := Trim(line[..colon.value], BLANK), Trim(line[colon.value + 1..], BLANK);
      var isDisposition := EqualsIgnoringCase(key, "content-disposition");
      var isType := EqualsIgnoringCase(key, "content-type");
      if isDisposition {
        var filled := ParseContentDisposition(value, part);
        if filled.None? {
          return None;
        }
        part := filled.value;
      } else if isType {
        part := part.(contentType := value);
      }
      pos := next;
    }
    return if part.name != "" then Some(part) else None;
  }
}
