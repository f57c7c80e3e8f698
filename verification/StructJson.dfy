/** Decoding the JSON that protobuf makes of `google.protobuf.Struct`: every value is
wrapped in an object that names its type, every object in `fields`, every list in
`values`. */
module StructJson {
  import opened Text
  import opened Json

  // ---------------------------------------------------------------------
  // The decoder.

  predicate HasOnlyKey(v: Json, key: string) { v.Obj? && v.fields.Keys == {key} }

  function NormalizeStruct(v: Json): Json
    decreases v, 0
  {
    if !v.Obj? || "fields" !in v.fields || !v.fields["fields"].Obj? then Obj(map[])
    else
      var inner := v.fields["fields"];
      Obj(map k | k in inner.fields :: NormalizeJson(inner.fields[k]))
  }

  function NormalizeList(v: Json): Json
    decreases v, 0
  {
    if !v.Obj? || "values" !in v.fields || !v.fields["values"].Arr? then Arr([])
    else
      var inner := v.fields["values"];
      Arr(seq(|inner.items|, i requires 0 <= i < |inner.items| => NormalizeJson(inner.items[i])))
  }

  predicate IsValueWrapper(v: Json) {
    || HasOnlyKey(v, "null_value") || HasOnlyKey(v, "number_value") || HasOnlyKey(v, "string_value")
    || HasOnlyKey(v, "bool_value") || HasOnlyKey(v, "struct_value") || HasOnlyKey(v, "list_value")
  }

  function NormalizeValue(v: Json): Json
    decreases v, 0
  {
    if HasOnlyKey(v, "null_value") then Null
    else if HasOnlyKey(v, "number_value") then v.fields["number_value"]
    else if HasOnlyKey(v, "string_value") then v.fields["string_value"]
    else if HasOnlyKey(v, "bool_value") then v.fields["bool_value"]
    else if HasOnlyKey(v, "struct_value") then NormalizeStruct(v.fields["struct_value"])
    else if HasOnlyKey(v, "list_value") then NormalizeList(v.fields["list_value"])
    else v
  }

  function NormalizeJson(v: Json): Json
    decreases v, 1
  {
    if HasOnlyKey(v, "fields") then NormalizeStruct(v)
    else if IsValueWrapper(v) then NormalizeValue(v)
    else
      match v
      case Arr(items) => Arr(seq(|items|, i requires 0 <= i < |items| => NormalizeJson(items[i])))
      case Obj(fields) => Obj(map k | k in fields :: NormalizeJson(fields[k]))
      case _ => v
  }

  // ---------------------------------------------------------------------
  // The encoder.

  /** What the protobuf printer leaves open: how it writes the null enumerator, and an
  empty map or list, which it may leave out. */
  datatype Empty = Omitted | AsArray | AsObject

  datatype Style = Style(nullTag: Json, emptyStruct: Empty, emptyListOmitted: bool)

  function EncodeStruct(st: Style, v: Json): Json
    requires v.Obj?
    decreases v, 0
  {
    if v.fields == map[] then
      match st.emptyStruct
      case Omitted => Obj(map[])
      case AsArray => Obj(map["fields" := Arr([])])
      case AsObject => Obj(map["fields" := Obj(map[])])
    else Obj(map["fields" := Obj(map k | k in v.fields :: EncodeValue(st, v.fields[k]))])
  }

  function EncodeList(st: Style, v: Json): Json
    requires v.Arr?
    decreases v, 0
  {
    if v.items == [] && st.emptyListOmitted then Obj(map[])
    else Obj(map["values" := Arr(seq(|v.items|, i requires 0 <= i < |v.items| => EncodeValue(st, v.items[i])))])
  }

  function EncodeValue(st: Style, v: Json): Json
    decreases v, 1
  {
    match v
    case Null => Obj(map["null_value" := st.nullTag])
    case Bool(_) => Obj(map["bool_value" := v])
    case Number(_) => Obj(map["number_value" := v])
    case Str(_) => Obj(map["string_value" := v])
    case Obj(_) => Obj(map["struct_value" := EncodeStruct(st, v)])
    case Arr(_) => Obj(map["list_value" := EncodeList(st, v)])
  }

  // ---------------------------------------------------------------------
  // The round trip.

  lemma {:induction false} OneKey(key: string, v: Json)
    ensures forall k :: HasOnlyKey(Obj(map[key := v]), k) <==> k == key
  {
    var m := map[key := v];
    assert m.Keys == {key};
    forall k ensures HasOnlyKey(Obj(m), k) <==> k == key {
      assert key in {key};
    }
  }

  lemma {:induction false} ValueRoundTrip(st: Style, v: Json)
    ensures NormalizeJson(EncodeValue(st, v)) == v
    decreases v, 1
  {
    match v {
      case Null => Wrapped("null_value", st.nullTag);
      case Bool(_) => Wrapped("bool_value", v);
      case Number(_) => Wrapped("number_value", v);
      case Str(_) => Wrapped("string_value", v);
      case Obj(_) =>
        Wrapped("struct_value", EncodeStruct(st, v));
        StructRoundTrip(st, v);
      case Arr(_) =>
        Wrapped("list_value", EncodeList(st, v));
        ListRoundTrip(st, v);
    }
  }

  /** A wrapper is read by its key. */
  lemma {:induction false} Wrapped(key: string, v: Json)
    requires key in {"null_value", "number_value", "string_value", "bool_value", "struct_value", "list_value"}
    ensures NormalizeJson(Obj(map[key := v]))
         == if key == "null_value" then Null
            else if key == "struct_value" then NormalizeStruct(v)
            else if key == "list_value" then NormalizeList(v)
            else v
  {
    hide NormalizeStruct, NormalizeList, HasOnlyKey;
    OneKey(key, v);
    var w := Obj(map[key := v]);
    assert w.fields[key] == v;
    assert IsValueWrapper(w) && !HasOnlyKey(w, "fields");
  }

  lemma {:induction false} StructRoundTrip(st: Style, v: Json)
    requires v.Obj?
    ensures NormalizeStruct(EncodeStruct(st, v)) == v
    decreases v, 0
  {
    if v.fields != map[] {
      forall k | k in v.fields ensures NormalizeJson(EncodeValue(st, v.fields[k])) == v.fields[k] {
        ValueRoundTrip(st, v.fields[k]);
      }
      hide EncodeValue, NormalizeJson;
      var inner := map k | k in v.fields :: EncodeValue(st, v.fields[k]);
      assert EncodeStruct(st, v).fields["fields"] == Obj(inner);
      assert (map k | k in inner :: NormalizeJson(inner[k])) == v.fields;
    }
  }

  lemma {:induction false} ListRoundTrip(st: Style, v: Json)
    requires v.Arr?
    ensures NormalizeList(EncodeList(st, v)) == v
    decreases v, 0
  {
    forall i | 0 <= i < |v.items| ensures NormalizeJson(EncodeValue(st, v.items[i])) == v.items[i] {
      ValueRoundTrip(st, v.items[i]);
    }
    hide EncodeValue, NormalizeJson;
  }

  /** Main result: for every object, however nested and whatever its keys, decoding
  its encoding gives it back; in particular objects that themselves look like
  wrappers or have the single key `fields`. */
  lemma {:induction false} ObjectRoundTrip(st: Style, v: Json)
    requires v.Obj?
    ensures NormalizeJson(EncodeStruct(st, v)) == v
  {
    StructRoundTrip(st, v);
    var w := EncodeStruct(st, v);
    if "fields" in w.fields {
      OneKey("fields", w.fields["fields"]);
      assert HasOnlyKey(w, "fields");
    } else {
      assert w == Obj(map[]);
      assert NormalizeJson(w).fields.Keys == {};
    }
  }

  // ---------------------------------------------------------------------
  // Structs inside messages.

  /** The JSON of a message: its fields hold scalars, lists, messages and Structs. */
  datatype Doc =
    | Scalar(json: Json)
    | List(docs: seq<Doc>)
    | Message(parts: map<string, Doc>)
    | Struct(object: Json)

  /** Scalars are scalars, Structs objects, and no message looks like an encoding. */
  predicate Proper(d: Doc)
    decreases d
  {
    match d
    case Scalar(j) => !j.Arr? && !j.Obj?
    case List(docs) => forall i | 0 <= i < |docs| :: Proper(docs[i])
    case Message(parts) => Unlike(parts.Keys) && forall k | k in parts :: Proper(parts[k])
    case Struct(j) => j.Obj?
  }

  predicate Unlike(keys: set<string>) {
    && keys != {"fields"} && keys != {"null_value"} && keys != {"number_value"} && keys != {"string_value"}
    && keys != {"bool_value"} && keys != {"struct_value"} && keys != {"list_value"}
  }

  /** What the protobuf printer writes. */
  function Printed(st: Style, d: Doc): Json
    requires Proper(d)
    decreases d
  {
    match d
    case Scalar(j) => j
    case List(docs) => Arr(seq(|docs|, i requires 0 <= i < |docs| => Printed(st, docs[i])))
    case Message(parts) => Obj(map k | k in parts :: Printed(st, parts[k]))
    case Struct(j) => EncodeStruct(st, j)
  }

  /** What the client should see. */
  function Meant(d: Doc): Json
    decreases d
  {
    match d
    case Scalar(j) => j
    case List(docs) => Arr(seq(|docs|, i requires 0 <= i < |docs| => Meant(docs[i])))
    case Message(parts) => Obj(map k | k in parts :: Meant(parts[k]))
    case Struct(j) => j
  }

  /** Decoding a whole message decodes its Structs and changes nothing else. */
  lemma {:induction false} MessageDecoded(st: Style, d: Doc)
    requires Proper(d)
    ensures NormalizeJson(Printed(st, d)) == Meant(d)
    decreases d
  {
    match d {
      case Scalar(_) =>
      case Struct(j) => ObjectRoundTrip(st, j);
      case List(docs) =>
        forall i | 0 <= i < |docs| ensures NormalizeJson(Printed(st, docs[i])) == Meant(docs[i]) {
          MessageDecoded(st, docs[i]);
        }
      case Message(parts) =>
        forall k | k in parts ensures NormalizeJson(Printed(st, parts[k])) == Meant(parts[k]) {
          MessageDecoded(st, parts[k]);
        }
        MessageNode(Printed(st, d).fields, parts);
    }
  }

  lemma {:induction false} MessageNode(printed: map<string, Json>, parts: map<string, Doc>)
    requires Unlike(parts.Keys) && printed.Keys == parts.Keys
    requires forall k | k in parts :: NormalizeJson(printed[k]) == Meant(parts[k])
    ensures NormalizeJson(Obj(printed)) == Meant(Message(parts))
  {
    NodeNormalized(Obj(printed));
    hide NormalizeJson, Unlike;
    SameFields(printed, parts);
  }

  lemma {:induction false} SameFields(printed: map<string, Json>, parts: map<string, Doc>)
    requires printed.Keys == parts.Keys
    requires forall k | k in parts :: NormalizeJson(printed[k]) == Meant(parts[k])
    ensures (map k | k in printed :: NormalizeJson(printed[k])) == map k | k in parts :: Meant(parts[k])
  {
    hide NormalizeJson, Meant;
  }

  lemma {:induction false} NodeNormalized(v: Json)
    requires v.Obj? && Unlike(v.fields.Keys)
    ensures NormalizeJson(v) == Obj(map k | k in v.fields :: NormalizeJson(v.fields[k]))
  {
    assert !IsValueWrapper(v) && !HasOnlyKey(v, "fields");
  }
}
