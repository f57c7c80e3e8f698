/** The streaming detector that most tool-call formats inherit
(`BaseFormatDetector::parse_streaming_increment`): a marker, then JSON that is
parsed again from the start on every increment, arguments being streamed as far as
two successive parses agree. */
module BaseDetector {
  import opened Text
  import opened Json
  import opened ToolCalls

  /** What `partial_json_loads` returns: a value, and how many bytes it took. */
  datatype Loaded = Loaded(json: Json, end: nat)

  /** The format, the declared tools, and the library: `loads` is `None` when it
  throws, as is `dump`; the flag says whether unfinished strings are accepted. */
  datatype Env = Env(
    bot: string,
    eot: string,
    separator: string,
    tools: set<string>,
    hasToolCall: string -> bool,
    loads: (string, bool) -> Option<Loaded>,
    complete: string -> bool,
    dump: Json -> Option<string>)

  /** A cached call (`prev_tool_call_arr_`): a map that may lack either key. */
  datatype Entry = Entry(name: Option<string>, arguments: Option<string>)

  const NO_ENTRY: Entry := Entry(None, None)

  datatype State = State(
    buffer: string,
    toolId: int,
    nameSent: bool,
    streamed: seq<string>,
    prev: seq<Entry>)
  {
    /** While a call's arguments are streamed, its slot exists. */
    predicate Valid() { toolId >= -1 && (nameSent ==> 0 <= toolId < |streamed|) }
  }

  const INITIAL: State := State("", -1, false, [], [])

  // ---------------------------------------------------------------------
  // Searches.

  /** The length of the shortest beginning of the token, from `from` on, that the
  buffer ends with; 0 if none. */
  function PartialToken(buffer: string, token: string, from: nat): (r: nat)
    requires from >= 1
    ensures r != 0 ==> from <= r <= |token| && EndsWith(buffer, token[..r])
    ensures forall i | from <= i <= |token| && (r == 0 || i < r) :: !EndsWith(buffer, token[..i])
    decreases |token| + 1 - from
  {
    if from > |token| || from > |buffer| then 0
    else if EndsWith(buffer, token[..from]) then from
    else PartialToken(buffer, token, from + 1)
  }

  method EndsWithPartialToken(buffer: string, token: string) returns (n: nat)
    ensures n == PartialToken(buffer, token, 1)
    ensures n == 0 <==> forall i | 1 <= i <= |token| :: !EndsWith(buffer, token[..i])
  {
    var i := 1;
    while i <= |buffer| && i <= |token|
      invariant 1 <= i
      invariant PartialToken(buffer, token, 1) == PartialToken(buffer, token, i)
      decreases |token| + 1 - i
    {
      if token[..i] == buffer[|buffer| - i..] {
        return i;
      }
      i := i + 1;
    }
    return 0;
  }

  function CommonPrefix(a: string, b: string): (r: string)
    ensures r <= a && r <= b
  {
    if a == "" || b == "" || a[0] != b[0] then "" else [a[0]] + CommonPrefix(a[1..], b[1..])
  }

  /** It is the longest. */
  lemma {:induction false} CommonPrefixLongest(a: string, b: string, p: string)
    requires p <= a && p <= b
    ensures p <= CommonPrefix(a, b)
  {
    if p != "" {
      assert p[1..] <= a[1..] && p[1..] <= b[1..];
      CommonPrefixLongest(a[1..], b[1..], p[1..]);
    }
  }

  /** What the loop has found, and what is still to come. */
  function Found(prefix: string, a: string, b: string, i: nat): string
    requires i <= |a| && i <= |b|
  {
    prefix + CommonPrefix(a[i..], b[i..])
  }

  lemma {:induction false} FoundStart(a: string, b: string)
    ensures Found("", a, b, 0) == CommonPrefix(a, b)
  {
    assert a[0..] == a && b[0..] == b;
  }

  lemma {:induction false} FoundNext(prefix: string, a: string, b: string, i: nat)
    requires i < |a| && i < |b|
    ensures Found(prefix, a, b, i) == if a[i] == b[i] then Found(prefix + [a[i]], a, b, i + 1) else prefix
  {
    var rest := CommonPrefix(a[i + 1..], b[i + 1..]);
    assert a[i..][1..] == a[i + 1..] && b[i..][1..] == b[i + 1..];
    assert CommonPrefix(a[i..], b[i..]) == if a[i] == b[i] then [a[i]] + rest else "";
    hide CommonPrefix;
    assert prefix + ([a[i]] + rest) == prefix + [a[i]] + rest;
  }

  lemma {:induction false} FoundEnd(prefix: string, a: string, b: string, i: nat)
    requires i <= |a| && i <= |b| && (i == |a| || i == |b|)
    ensures Found(prefix, a, b, i) == prefix
  {
  }

  method FindCommonPrefix(a: string, b: string) returns (prefix: string)
    ensures prefix == CommonPrefix(a, b)
  {
    hide CommonPrefix, Found;
    prefix := "";
    var i := 0;
    FoundStart(a, b);
    while i < |a| && i < |b|
      invariant 0 <= i <= |a| && i <= |b|
      invariant CommonPrefix(a, b) == Found(prefix, a, b, i)
    {
      FoundNext(prefix, a, b, i);
      if a[i] != b[i] {
        return;
      }
      prefix := prefix + [a[i]];
      i := i + 1;
    }
    FoundEnd(prefix, a, b, i);
  }

  // ---------------------------------------------------------------------
  // What one increment sees.

  datatype Arguments = Absent | Dump(text: string) | Unprintable

  /** The text, read: ordinary text, text held back, nothing to act on, a call of an
  undeclared tool, or a call so far. `rest` is what follows a complete call; none
  when cutting it off would throw. */
  datatype Reading =
    | Plain
    | Withheld
    | Nothing
    | Undeclared
    | Seen(name: Option<string>, arguments: Arguments, complete: bool, rest: Option<string>)

  function Field(j: Json, key: string): Option<Json> {
    if j.Obj? && key in j.fields then Some(j.fields[key]) else None
  }

  predicate Empty(j: Json) {
    match j
    case Null => true
    case Arr(items) => items == []
    case Obj(fields) => |fields| == 0
    case _ => false
  }

  function NameOf(j: Json): Option<string> {
    match Field(j, "name")
    case Some(Str(s)) => Some(s)
    case _ => None
  }

  /** Where the JSON starts. */
  function StartOf(env: Env, toolId: int, text: string): nat {
    if StartsWith(text, env.bot) then |env.bot|
    else if toolId > 0 && StartsWith(text, env.separator + env.bot) then |env.separator| + |env.bot|
    else if toolId > 0 && StartsWith(text, env.separator) then |env.separator|
    else 0
  }

  function Clip(s: string, n: nat): string { if n < |s| then s[..n] else s }

  function ReadCall(env: Env, nameSent: bool, text: string, start: nat): Reading
    requires start <= |text|
  {
    match env.loads(text[start..], nameSent)
    case None => Nothing
    case Some(Loaded(json, end)) =>
      var name := NameOf(json);
      if name.Some? && name.value !in env.tools then Undeclared
      else if Field(json, "parameters").Some? && Field(json, "arguments").Some? then Nothing
      else if Empty(json) then Nothing
      else
        var given := if Field(json, "parameters").Some? then Field(json, "parameters") else Field(json, "arguments");
        var arguments :=
          match given
          case None => Absent
          case Some(j) => (match env.dump(j) case None => Unprintable case Some(s) => Dump(s));
        Seen(name, arguments, env.complete(Clip(text[start..], end)),
             if start + end <= |text| then Some(text[start + end..]) else None)
  }

  function Read(env: Env, toolId: int, nameSent: bool, text: string): Reading {
    if !env.hasToolCall(text) && !(toolId > 0 && StartsWith(text, env.separator)) then
      if PartialToken(text, env.bot, 1) == 0 then Plain else Withheld
    else
      var start := StartOf(env, toolId, text);
      if start >= |text| then Nothing else ReadCall(env, nameSent, text, start)
  }

  // ---------------------------------------------------------------------
  // What it does.

  /** The new state, what is emitted, and whether cutting or printing the arguments threw (the exception is caught). */
  datatype Effect = Effect(state: State, result: Result, threw: bool)

  const SILENT: Result := Result("", [])

  /** The first end marker is taken out of ordinary text. */
  function WithoutEnd(env: Env, text: string): string {
    match Find(text, env.eot, 0)
    case None => text
    case Some(p) => text[..p] + text[p + |env.eot|..]
  }

  function Padded<T>(xs: seq<T>, n: int, x: T): (r: seq<T>)
    ensures |r| == (if |xs| < n then n else |xs|)
    ensures xs <= r && forall i | |xs| <= i < |r| :: r[i] == x
    decreases n - |xs|
  {
    if |xs| < n then Padded(xs + [x], n, x) else xs
  }

  /** The cache is brought up to date after a call was seen; printing the arguments
  may throw, which loses what was to be emitted. */
  function Cache(st: State, seen: Reading, result: Result): Effect
    requires seen.Seen? && st.toolId >= -1
  {
    if st.toolId < 0 then Effect(st, result, false)
    else
      var prev := Padded(st.prev, st.toolId + 1, NO_ENTRY);
      match seen.arguments
      case Unprintable => Effect(st.(prev := prev), SILENT, true)
      case Absent => Effect(st.(prev := prev[st.toolId := Entry(seen.name, None)]), result, false)
      case Dump(text) => Effect(st.(prev := prev[st.toolId := Entry(seen.name, Some(text))]), result, false)
  }

  function SendName(st: State, seen: Reading): Effect
    requires seen.Seen? && st.Valid()
  {
    match seen.name
    case None => Cache(st, seen, SILENT)
    case Some(name) =>
      var id := if st.toolId == -1 then 0 else st.toolId;
      var streamed := if st.toolId == -1 then st.streamed + [""] else Padded(st.streamed, st.toolId + 1, "");
      var named := st.(toolId := id, nameSent := true, streamed := streamed);
      Cache(named, seen, Result("", [Item(id, Some(name), "")]))
  }

  function Delta(id: int, diff: string): Result {
    if diff == "" then SILENT else Result("", [Item(id, None, diff)])
  }

  /** The part of the arguments that this parse and the one before agree on. */
  function Agreed(st: State, current: string): Option<string>
    requires st.toolId >= 0
  {
    if st.toolId < |st.prev| && st.prev[st.toolId].arguments.Some? && st.prev[st.toolId].arguments.value != current then
      Some(CommonPrefix(st.prev[st.toolId].arguments.value, current))
    else None
  }

  function SendArguments(st: State, seen: Reading): Effect
    requires seen.Seen? && st.Valid() && st.nameSent
  {
    match seen.arguments
    case Absent => Cache(st, seen, SILENT)
    case Unprintable => Effect(st, SILENT, true)
    case Dump(current) =>
      var id, sent := st.toolId, |st.streamed[st.toolId]|;
      if seen.complete then
        if sent > |current| || seen.rest.None? then Effect(st, SILENT, true)
        else
          var prev := if id < |st.prev| then st.prev[id := NO_ENTRY] else st.prev;
          var closed := State(seen.rest.value, id + 1, false, st.streamed[id := ""], prev);
          Cache(closed, seen, Delta(id, current[sent..]))
      else
        match Agreed(st, current)
        case None => Cache(st, seen, SILENT)
        case Some(prefix) =>
          if sent > |prefix| then Effect(st, SILENT, true)
          else
            var diff := prefix[sent..];
            Cache(st.(streamed := st.streamed[id := st.streamed[id] + diff]), seen, Delta(id, diff))
  }

  function Reset(st: State): State {
    State("", -1, false, if st.streamed == [] then [] else st.streamed[..|st.streamed| - 1], st.prev)
  }

  function Apply(env: Env, st: State, seen: Reading): Effect
    requires st.Valid()
  {
    match seen
    case Plain => Effect(st.(buffer := ""), Result(WithoutEnd(env, st.buffer), []), false)
    case Withheld => Effect(st, SILENT, false)
    case Nothing => Effect(st, SILENT, false)
    case Undeclared => Effect(Reset(st), SILENT, false)
    case Seen(_, _, _, _) => if st.nameSent then SendArguments(st, seen) else SendName(st, seen)
  }

  /** One call of `parse_streaming_increment`. */
  function Step(env: Env, st: State, newText: string): (r: Effect)
    requires st.Valid()
    ensures r.state.Valid()
  {
    var received := st.(buffer := st.buffer + newText);
    Apply(env, received, Read(env, st.toolId, st.nameSent, received.buffer))
  }

  // ---------------------------------------------------------------------
  // The class.

  class Detector {
    const env: Env
    var buffer: string
    var currentToolId: int
    var currentToolNameSent: bool
    var streamedArgsForTool: seq<string>
    var prevToolCallArr: seq<Entry>

    ghost function Fields(): State
      reads this
    {
      State(buffer, currentToolId, currentToolNameSent, streamedArgsForTool, prevToolCallArr)
    }

    constructor (environment: Env)
      ensures Fields() == INITIAL && env == environment
    {
      env := environment;
      buffer, currentToolId, currentToolNameSent, streamedArgsForTool, prevToolCallArr := "", -1, false, [], [];
    }

    method ParseStreamingIncrement(newText: string) returns (result: Result, threw: bool)
      requires Fields().Valid()
      modifies this
      ensures Effect(Fields(), result, threw) == Step(env, old(Fields()), newText)
    {
      hide Cache, SendName, SendArguments, ReadCall, WithoutEnd;
      buffer := buffer + newText;
      var text := buffer;
      ghost var received := Fields();
      if !env.hasToolCall(text) && !(currentToolId > 0 && StartsWith(text, env.separator)) {
        var n := EndsWithPartialToken(text, env.bot);
        if n != 0 {
          return SILENT, false;
        }
        buffer := "";
        return Result(WithoutEnd(env, text), []), false;
      }
      var start := StartOf(env, currentToolId, text);
      if start >= |text| {
        return SILENT, false;
      }
      var seen := ReadCall(env, currentToolNameSent, text, start);
      match seen {
        case Undeclared =>
          buffer, currentToolId, currentToolNameSent := "", -1, false;
          if streamedArgsForTool != [] {
            streamedArgsForTool := streamedArgsForTool[..|streamedArgsForTool| - 1];
          }
          return SILENT, false;
        case Seen(name, arguments, complete, rest) =>
          if currentToolNameSent {
            result, threw := StreamArguments(seen);
          } else {
            result, threw := StreamName(seen);
          }
        case _ =>
          CallOrNothing(env, currentToolNameSent, text, start);
          return SILENT, false;
      }
    }

    method StreamName(seen: Reading) returns (result: Result, threw: bool)
      requires Fields().Valid() && seen.Seen?
      modifies this
      ensures Effect(Fields(), result, threw) == SendName(old(Fields()), seen)
    {
      hide Cache;
      result := SILENT;
      if seen.name.Some? {
        if currentToolId == -1 {
          currentToolId := 0;
          streamedArgsForTool := streamedArgsForTool + [""];
        } else {
          while |streamedArgsForTool| <= currentToolId
            invariant Padded(streamedArgsForTool, currentToolId + 1, "")
                   == Padded(old(streamedArgsForTool), currentToolId + 1, "")
            invariant Fields() == old(Fields()).(streamed := streamedArgsForTool)
          {
            streamedArgsForTool := streamedArgsForTool + [""];
          }
        }
        result := Result("", [Item(currentToolId, seen.name, "")]);
        currentToolNameSent := true;
      }
      result, threw := UpdateCache(seen, result);
    }

    method StreamArguments(seen: Reading) returns (result: Result, threw: bool)
      requires Fields().Valid() && seen.Seen? && currentToolNameSent
      modifies this
      ensures Effect(Fields(), result, threw) == SendArguments(old(Fields()), seen)
    {
      hide Cache;
      match seen.arguments {
        case Absent => result, threw := UpdateCache(seen, SILENT);
        case Unprintable => return SILENT, true;
        case Dump(current) =>
          var sent := |streamedArgsForTool[currentToolId]|;
          var diff := "";
          var completing := currentToolId;
          if seen.complete {
            if sent > |current| || seen.rest.None? {
              return SILENT, true;
            }
            diff := current[sent..];
            buffer := seen.rest.value;
            if currentToolId < |prevToolCallArr| {
              prevToolCallArr := prevToolCallArr[currentToolId := NO_ENTRY];
            }
            currentToolNameSent := false;
            streamedArgsForTool := streamedArgsForTool[currentToolId := ""];
            currentToolId := currentToolId + 1;
          } else if currentToolId < |prevToolCallArr| {
            var before := prevToolCallArr[currentToolId].arguments;
            if before.Some? && before.value != current {
              var prefix := FindCommonPrefix(before.value, current);
              if sent > |prefix| {
                return SILENT, true;
              }
              diff := prefix[sent..];
            }
          }
          if diff != "" && !seen.complete {
            streamedArgsForTool := streamedArgsForTool[currentToolId := streamedArgsForTool[currentToolId] + diff];
          }
          SameSlot(old(streamedArgsForTool), completing);
          result, threw := UpdateCache(seen, Delta(completing, diff));
      }
    }

    method UpdateCache(seen: Reading, pending: Result) returns (result: Result, threw: bool)
      requires currentToolId >= -1 && seen.Seen?
      modifies this`prevToolCallArr
      ensures Effect(Fields(), result, threw) == Cache(old(Fields()), seen, pending)
    {
      result := pending;
      if currentToolId < 0 {
        return result, false;
      }
      while |prevToolCallArr| <= currentToolId
        invariant Padded(prevToolCallArr, currentToolId + 1, NO_ENTRY)
               == Padded(old(prevToolCallArr), currentToolId + 1, NO_ENTRY)
      {
        prevToolCallArr := prevToolCallArr + [NO_ENTRY];
      }
      match seen.arguments {
        case Unprintable => return SILENT, true;
        case Absent => prevToolCallArr := prevToolCallArr[currentToolId := Entry(seen.name, None)];
        case Dump(text) => prevToolCallArr := prevToolCallArr[currentToolId := Entry(seen.name, Some(text))];
      }
      return result, false;
    }
  }

  lemma {:induction false} CallOrNothing(env: Env, nameSent: bool, text: string, start: nat)
    requires start <= |text|
    ensures var r := ReadCall(env, nameSent, text, start); r.Nothing? || r.Undeclared? || r.Seen?
  {
  }

  lemma {:induction false} SameSlot(xs: seq<string>, i: int)
    requires 0 <= i < |xs|
    ensures xs[i := xs[i] + ""] == xs
  {
    assert xs[i] + "" == xs[i];
  }
}
