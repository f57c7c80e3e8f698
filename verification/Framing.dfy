/** JSON and binary data in one body: media are appended to a payload and referred to
by offset and length, the payload follows the JSON, and the length of the JSON is
announced in a header. */
module Framing {
  import opened Text

  /** The largest `size_t`. */
  const MAX: nat := 0xFFFF_FFFF_FFFF_FFFF

  datatype BinaryRef = BinaryRef(offset: nat, length: nat)

  predicate InRange(ref: BinaryRef, payload: string) { ref.offset + ref.length <= |payload| }

  function SliceOf(ref: BinaryRef, payload: string): string
    requires InRange(ref, payload)
  {
    payload[ref.offset..ref.offset + ref.length]
  }

  // ---------------------------------------------------------------------
  // Building the payload (mm_service_utils).

  function Total(media: seq<string>): nat {
    if media == [] then 0 else |media[0]| + Total(media[1..])
  }

  lemma {:induction false} TotalIsLength(media: seq<string>)
    ensures Total(media) == |Flatten(media)|
  {
    if media != [] {
      TotalIsLength(media[1..]);
    }
  }

  /** Room is reserved exactly when the sum of the sizes is a `size_t`; the running
  total is compared before it could wrap. */
  method ReserveBinaryPayload(media: seq<string>) returns (ok: bool, reserved: nat)
    requires forall m | m in media :: |m| <= MAX
    ensures ok <==> Total(media) <= MAX
    ensures ok ==> reserved == |Flatten(media)|
  {
    TotalIsLength(media);
    var total := 0;
    var i := 0;
    while i < |media|
      invariant 0 <= i <= |media| && total <= MAX
      invariant total + Total(media[i..]) == Total(media)
    {
      assert media[i..][0] == media[i] && media[i..][1..] == media[i + 1..];
      if |media[i]| > MAX - total {
        return false, 0;
      }
      total := total + |media[i]|;
      i := i + 1;
    }
    return true, total;
  }

  datatype MediaSource = Binary(name: string, ref: BinaryRef) | Base64(name: string, text: string)

  class BinaryPayload {
    var bytes: string

    constructor ()
      ensures bytes == ""
    {
      bytes := "";
    }

    method Append(data: string) returns (ref: BinaryRef)
      modifies this
      ensures bytes == old(bytes) + data
      ensures InRange(ref, bytes) && SliceOf(ref, bytes) == data && ref.offset == |old(bytes)|
    {
      ref := BinaryRef(|bytes|, |data|);
      bytes := bytes + data;
    }

    /** The data goes to the payload, or into the source itself as base 64. */
    method FillMediaSource(data: string, name: string, useBinary: bool, encode: string -> string)
      returns (source: MediaSource)
      modifies this
      ensures source.name == name && source.Binary? == useBinary
      ensures useBinary ==>
        bytes == old(bytes) + data && InRange(source.ref, bytes) && SliceOf(source.ref, bytes) == data
      ensures !useBinary ==> bytes == old(bytes) && source.text == encode(data)
    {
      if useBinary {
        var ref := Append(data);
        return Binary(name, ref);
      }
      return Base64(name, encode(data));
    }
  }

  /** The refs recorded for media appended one after the other to a payload of the
  given size. */
  function Refs(media: seq<string>, size: nat): seq<BinaryRef> {
    if media == [] then [] else [BinaryRef(size, |media[0]|)] + Refs(media[1..], size + |media[0]|)
  }

  /** The refs lie one behind the other without a gap. */
  predicate TileFrom(refs: seq<BinaryRef>, start: nat, end: nat) {
    if refs == [] then start == end
    else refs[0].offset == start && TileFrom(refs[1..], start + refs[0].length, end)
  }

  lemma {:induction false} RefsTile(media: seq<string>, before: string)
    ensures var refs, payload := Refs(media, |before|), before + Flatten(media);
      && |refs| == |media| && TileFrom(refs, |before|, |payload|)
      && forall i | 0 <= i < |media| :: InRange(refs[i], payload) && SliceOf(refs[i], payload) == media[i]
  {
    var payload := before + Flatten(media);
    if media != [] {
      var next, rest := before + media[0], Flatten(media[1..]);
      RefsTile(media[1..], next);
      assert payload == next + rest;
      assert payload[|before|..|before| + |media[0]|] == media[0];
      var refs := Refs(media, |before|);
      forall i | 0 <= i < |media| ensures InRange(refs[i], payload) && SliceOf(refs[i], payload) == media[i] {
        if i > 0 {
          assert refs[i] == Refs(media[1..], |next|)[i - 1] && media[i] == media[1..][i - 1];
        }
      }
    }
  }

  // ---------------------------------------------------------------------
  // Decimal numbers in headers.

  function Digit(n: nat): char
    requires n < 10
  {
    ("0123456789")[n]
  }

  /** `std::to_string`. */
  function Decimal(n: nat): string {
    if n < 10 then [Digit(n)] else Decimal(n / 10) + [Digit(n % 10)]
  }

  predicate IsDigit(c: char) { '0' <= c <= '9' }

  function Value(s: string): nat
    requires forall c | c in s :: IsDigit(c)
  {
    if s == "" then 0
    else
      assert IsDigit(s[|s| - 1]);
      Value(s[..|s| - 1]) * 10 + (s[|s| - 1] as int - '0' as int)
  }

  /** `std::from_chars` for a `size_t`, all of the text: digits only, and in range. */
  function ParseSize(s: string): Option<nat> {
    if s == "" || exists c :: c in s && !IsDigit(c) then None
    else if Value(s) > MAX then None
    else Some(Value(s))
  }

  lemma {:induction false} DecimalRoundTrip(n: nat)
    ensures Decimal(n) != "" && (forall c | c in Decimal(n) :: IsDigit(c)) && Value(Decimal(n)) == n
  {
    if n >= 10 {
      DecimalRoundTrip(n / 10);
      var head := Decimal(n / 10);
      assert Decimal(n)[..|Decimal(n)| - 1] == head;
      assert forall c | c in Decimal(n) :: c in head || c == Digit(n % 10);
    } else {
      assert Decimal(n)[..0] == "";
    }
  }

  lemma {:induction false} ParsedDecimal(n: nat)
    ensures ParseSize(Decimal(n)) == if n <= MAX then Some(n) else None
  {
    DecimalRoundTrip(n);
  }

  // ---------------------------------------------------------------------
  // The request side (http_request_body, call).

  const CONTENT_LENGTH: string := "Content-Length"
  const INFER_CONTENT_LENGTH: string := "Infer-Content-Length"

  datatype BodyLength = Length(json: nat) | Invalid(param: string)

  function HttpJsonBodyLength(size: nat, total: Option<string>, json: Option<string>): (r: BodyLength)
    ensures r.Length? ==> r.json <= size
  {
    if total.None? && json.None? then Length(size)
    else if total.None? then Invalid(CONTENT_LENGTH)
    else
      match ParseSize(total.value)
      case None => Invalid(CONTENT_LENGTH)
      case Some(n) =>
        if n != size then Invalid(CONTENT_LENGTH)
        else if json.None? then Length(size)
        else
          match ParseSize(json.value)
          case None => Invalid(INFER_CONTENT_LENGTH)
          case Some(k) => if k > n then Invalid(INFER_CONTENT_LENGTH) else Length(k)
  }

  datatype Request = Request(body: string, total: Option<string>, json: Option<string>)

  class Call {
    var payload: string
    var status: Option<string>   // the parameter at fault

    constructor ()
      ensures payload == "" && status.None?
    {
      payload, status := "", None;
    }

    /** Whatever was there before, the payload is the part of the body behind the JSON,
    or nothing if the headers do not fit; reading it is never short. */
    method InitRequestPayload(req: Request)
      modifies this
      ensures var length := HttpJsonBodyLength(|req.body|, req.total, req.json);
        match length
        case Length(k) => status.None? && req.body[..k] + payload == req.body
        case Invalid(param) => status == Some(param) && payload == ""
    {
      payload := "";
      var length := HttpJsonBodyLength(|req.body|, req.total, req.json);
      if length.Invalid? {
        status := Some(length.param);
        return;
      }
      // a read within the body is never short
      status := None;
      payload := req.body[length.json..];
    }
  }

  /** A body is accepted exactly when it has no length headers, or states its true
  length and, if it states the length of its JSON, one that is not longer. */
  lemma {:induction false} AcceptedBodies(size: nat, total: Option<string>, json: Option<string>)
    ensures HttpJsonBodyLength(size, total, json).Length? <==>
      (total.None? && json.None?)
      || (total.Some? && ParseSize(total.value) == Some(size)
          && (json.Some? ==> ParseSize(json.value).Some? && ParseSize(json.value).value <= size))
  {
    hide ParseSize;
  }

  /** Splitting at the announced length recovers the JSON and the payload. */
  lemma {:induction false} RequestRoundTrip(json: string, payload: string)
    requires |json + payload| <= MAX
    ensures var body := json + payload;
      && HttpJsonBodyLength(|body|, Some(Decimal(|body|)), Some(Decimal(|json|))) == Length(|json|)
      && body[..|json|] == json && body[|json|..] == payload
  {
    ParsedDecimal(|json + payload|);
    ParsedDecimal(|json|);
  }

  // ---------------------------------------------------------------------
  // The response side (non_stream_call).

  datatype Response = Response(attachment: string, jsonLength: Option<string>)

  class NonStreamCall {
    var attachment: string
    var jsonLength: Option<string>
    var responseComplete: bool
    var error: Option<string>

    constructor ()
      ensures attachment == "" && jsonLength.None? && !responseComplete && error.None?
    {
      attachment, jsonLength, responseComplete, error := "", None, false, None;
    }

    /** `json` is the serialised response, or why it does not serialise. */
    method WriteAndFinish(json: Option<string>, reason: string, payload: string) returns (ok: bool)
      modifies this
      ensures ok == json.Some? == responseComplete
      ensures json.None? ==> error == Some(reason) && attachment == old(attachment) && jsonLength == old(jsonLength)
      ensures json.Some? && payload != "" ==>
        attachment == old(attachment) + json.value + payload
        && jsonLength == Some(Decimal(|old(attachment) + json.value|))
      ensures json.Some? && payload == "" ==>
        attachment == old(attachment) + json.value && jsonLength == old(jsonLength)
    {
      if json.None? {
        responseComplete := false;
        error := Some(reason);
        return false;
      }
      attachment := attachment + json.value;
      responseComplete := true;
      if |payload| == 0 {
        return true;
      }
      var length := |attachment|;
      jsonLength := Some(Decimal(length));
      attachment := attachment + payload;
      return true;
    }
  }

  /** What a client makes of a response: the JSON, and the payload behind it. */
  function Split(attachment: string, jsonLength: Option<string>): Option<(string, string)> {
    match jsonLength
    case None => Some((attachment, ""))
    case Some(text) =>
      match ParseSize(text)
      case None => None
      case Some(k) => if k <= |attachment| then Some((attachment[..k], attachment[k..])) else None
  }

  /** A client that splits at the announced length gets back the JSON and the payload,
  also when there is no payload and no header. */
  method RespondAndSplit(json: string, payload: string) returns (split: Option<(string, string)>)
    requires |json| <= MAX
    ensures split == Some((json, payload))
  {
    var call := new NonStreamCall();
    var _ := call.WriteAndFinish(Some(json), "", payload);
    ParsedDecimal(|json|);
    assert "" + json == json;
    assert payload != "" ==> (json + payload)[..|json|] == json && (json + payload)[|json|..] == payload;
    split := Split(call.attachment, call.jsonLength);
  }

  // ---------------------------------------------------------------------
  // Reading a referenced file (speech_to_text_service_impl).

  datatype Audio = Loaded(bytes: string) | OutOfRange | TooLarge | BadBase64 | EmptyAudio

  /** 64-bit arithmetic wraps. */
  function Wrap(n: nat): nat { n % (MAX + 1) }

  function MaxBase64(maxBytes: nat): nat { Wrap(Wrap(maxBytes + 2) / 3 * 4) }

  method LoadSpeechAudio(source: MediaSource, payload: string, maxBytes: nat, decode: string -> Option<string>)
    returns (r: Audio)
    requires |payload| <= MAX && maxBytes <= MAX
    ensures source.Binary? ==> r == LoadedSlice(source.ref, payload, maxBytes)
    ensures source.Base64? ==> r == LoadedText(source.text, maxBytes, decode)
  {
    var bytes := "";
    match source {
      case Binary(_, ref) =>
        if ref.offset > |payload| || ref.length > |payload| - ref.offset {
          return OutOfRange;
        }
        if ref.length > maxBytes {
          return TooLarge;
        }
        var rest := payload[ref.offset..];
        assert rest[..ref.length] == SliceOf(ref, payload);
        bytes := rest[..ref.length];
      case Base64(_, text) =>
        if |text| > MaxBase64(maxBytes) {
          return TooLarge;
        }
        var decoded := decode(text);
        if decoded.None? {
          return BadBase64;
        }
        bytes := decoded.value;
    }
    if bytes == "" {
      return EmptyAudio;
    }
    if |bytes| > maxBytes {
      return TooLarge;
    }
    return Loaded(bytes);
  }

  /** A reference is accepted exactly when it lies in the payload, is not empty and not
  over the limit, and then gives the bytes it refers to. */
  function LoadedSlice(ref: BinaryRef, payload: string, maxBytes: nat): (r: Audio)
    ensures r.Loaded? <==> InRange(ref, payload) && 0 < ref.length <= maxBytes
    ensures r.Loaded? ==> r.bytes == SliceOf(ref, payload)
  {
    if !InRange(ref, payload) then OutOfRange
    else if ref.length > maxBytes then TooLarge
    else if ref.length == 0 then EmptyAudio
    else Loaded(SliceOf(ref, payload))
  }

  function LoadedText(text: string, maxBytes: nat, decode: string -> Option<string>): (r: Audio)
    ensures r.Loaded? ==> decode(text) == Some(r.bytes) && 0 < |r.bytes| <= maxBytes
  {
    if |text| > MaxBase64(maxBytes) then TooLarge
    else
      match decode(text)
      case None => BadBase64
      case Some(bytes) => if bytes == "" then EmptyAudio else if |bytes| > maxBytes then TooLarge else Loaded(bytes)
  }

  /** Main result, end to end: any list of files, framed behind any JSON, arrives; each
  file that is not empty and not over the limit is loaded byte for byte from the payload
  that the server extracts. */
  lemma {:induction false} FilesArrive(json: string, media: seq<string>, maxBytes: nat, i: nat)
    requires |json| + Total(media) <= MAX && i < |media|
    ensures var body := json + Flatten(media);
      var length := HttpJsonBodyLength(|body|, Some(Decimal(|body|)), Some(Decimal(|json|)));
      && length.Length? && body[..length.json] == json
      && |Refs(media, 0)| == |media|
      && (LoadedSlice(Refs(media, 0)[i], body[length.json..], maxBytes) == Loaded(media[i])
          <==> 0 < |media[i]| <= maxBytes)
  {
    TotalIsLength(media);
    RequestRoundTrip(json, Flatten(media));
    RefsTile(media, "");
    assert "" + Flatten(media) == Flatten(media);
    hide Refs, Flatten, Decimal, ParseSize;
  }

  /** Four characters of base 64 stand for three bytes: the bound on the text lets every
  file within the limit through if and only if the 64-bit arithmetic does not wrap. */
  lemma {:induction false} Base64BoundFits(maxBytes: nat)
    requires maxBytes <= MAX
    ensures (forall length: nat | length <= maxBytes :: Base64Length(length) <= MaxBase64(maxBytes))
       <==> Base64Length(maxBytes) <= MAX
  {
    if Base64Length(maxBytes) <= MAX {
      forall length: nat | length <= maxBytes ensures Base64Length(length) <= MaxBase64(maxBytes) {
        assert (length + 2) / 3 <= (maxBytes + 2) / 3;
      }
    } else {
      assert MaxBase64(maxBytes) < Base64Length(maxBytes);
    }
  }

  function Base64Length(length: nat): nat { (length + 2) / 3 * 4 }
}
