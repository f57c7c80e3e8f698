/** `convert_shard`, the loop over the tensors of a checkpoint that replaces FP8
weights by dequantised ones. It walks the keys in whatever order the file gives; the
results say when the order matters. */
module ShardConversion {
  import opened Text

  const SCALE_INV: string := "_scale_inv"
  const WEIGHT: string := ".weight"
  const WEIGHT_SCALE_INV: string := ".weight_scale_inv"

  /** A shard: its tensors, which of them are FP8, and the dequantisation, which may
  raise. */
  datatype Shard<!T> = Shard(tensors: map<string, T>, fp8: T -> bool, dequant: (T, T) -> Option<T>)

  predicate Distinct(keys: seq<string>) { forall i, j | 0 <= i < j < |keys| :: keys[i] != keys[j] }

  /** An order of the keys. */
  predicate OrderOf<T>(keys: seq<string>, m: map<string, T>) {
    && Distinct(keys)
    && (forall k | k in keys :: k in m) && (forall k | k in m :: k in keys)
  }

  // ---------------------------------------------------------------------
  // convert_shard.

  /** A scale that is recognised by its own name. */
  predicate Paired<T>(sh: Shard<T>, name: string) {
    EndsWith(name, WEIGHT_SCALE_INV)
    && (var weight := name[..|name| - |SCALE_INV|]; weight in sh.tensors && sh.fp8(sh.tensors[weight]))
  }

  datatype Conversion<T> = Conversion(converted: map<string, T>, skipped: set<string>, count: nat)

  /** One key; `None` when it raises. */
  function ConvertKey<T>(sh: Shard<T>, c: Conversion<T>, name: string): Option<Conversion<T>>
    requires name in sh.tensors
  {
    if name in c.skipped then Some(c)
    else if Paired(sh, name) then Some(c.(skipped := c.skipped + {name}))
    else
      var tensor := sh.tensors[name];
      if !sh.fp8(tensor) then Some(c.(converted := c.converted[name := tensor]))
      else if name + SCALE_INV !in sh.tensors then None
      else
        match sh.dequant(tensor, sh.tensors[name + SCALE_INV])
        case None => None
        case Some(t) => Some(Conversion(c.converted[name := t], c.skipped + {name + SCALE_INV}, c.count + 1))
  }

  function Convert<T>(sh: Shard<T>, c: Conversion<T>, keys: seq<string>): Option<Conversion<T>>
    requires forall k | k in keys :: k in sh.tensors
    decreases |keys|
  {
    if keys == [] then Some(c)
    else
      match ConvertKey(sh, c, keys[0])
      case None => None
      case Some(next) => Convert(sh, next, keys[1..])
  }

  lemma {:induction false} ConvertNext<T>(sh: Shard<T>, c: Conversion<T>, keys: seq<string>, i: nat)
    requires i < |keys| && forall k | k in keys :: k in sh.tensors
    ensures var next := ConvertKey(sh, c, keys[i]);
      Convert(sh, c, keys[i..]) == if next.None? then None else Convert(sh, next.value, keys[i + 1..])
  {
    assert keys[i..][0] == keys[i] && keys[i..][1..] == keys[i + 1..];
  }

  method ConvertShard<T>(sh: Shard<T>, keys: seq<string>) returns (r: Option<Conversion<T>>)
    requires OrderOf(keys, sh.tensors)
    ensures r == Convert(sh, Conversion(map[], {}, 0), keys)
  {
    var converted: map<string, T>, skipped: set<string>, count := map[], {}, 0;
    var i := 0;
    while i < |keys|
      invariant 0 <= i <= |keys|
      invariant Convert(sh, Conversion(map[], {}, 0), keys)
             == Convert(sh, Conversion(converted, skipped, count), keys[i..])
    {
      var name := keys[i];
      ConvertNext(sh, Conversion(converted, skipped, count), keys, i);
      hide Convert, EndsWith;
      i := i + 1;
      if name in skipped {
        continue;
      }
      if EndsWith(name, WEIGHT_SCALE_INV) {
        var weight := name[..|name| - |SCALE_INV|];
        if weight in sh.tensors && sh.fp8(sh.tensors[weight]) {
          skipped := skipped + {name};
          continue;
        }
      }
      var tensor := sh.tensors[name];
      if sh.fp8(tensor) {
        if name + SCALE_INV !in sh.tensors {
          return None;
        }
        var d := sh.dequant(tensor, sh.tensors[name + SCALE_INV]);
        if d.None? {
          return None;
        }
        tensor := d.value;
        skipped := skipped + {name + SCALE_INV};
        count := count + 1;
      }
      converted := converted[name := tensor];
    }
    return Some(Conversion(converted, skipped, count));
  }

  // ---------------------------------------------------------------------
  // What the conversion should be.

  /** An FP8 tensor that is not itself a recognised scale. */
  predicate Weight<T>(sh: Shard<T>, name: string)
    requires name in sh.tensors
  {
    sh.fp8(sh.tensors[name]) && !Paired(sh, name)
  }

  function Weights<T>(sh: Shard<T>, names: set<string>): set<string> {
    set k | k in names && k in sh.tensors && Weight(sh, k)
  }

  predicate Convertible<T>(sh: Shard<T>, name: string)
    requires name in sh.tensors
  {
    Weight(sh, name) ==>
      name + SCALE_INV in sh.tensors && sh.dequant(sh.tensors[name], sh.tensors[name + SCALE_INV]).Some?
  }

  predicate AllConvertible<T>(sh: Shard<T>) { forall k | k in sh.tensors :: Convertible(sh, k) }

  function Converted<T>(sh: Shard<T>, name: string): T
    requires name in sh.tensors && Convertible(sh, name)
  {
    if Weight(sh, name) then sh.dequant(sh.tensors[name], sh.tensors[name + SCALE_INV]).value else sh.tensors[name]
  }

  /** Each weight dequantised, its scale dropped, all else unchanged. */
  ghost predicate ConvertedShard<T>(sh: Shard<T>, result: map<string, T>) {
    && (forall k | k in sh.tensors :: k in result <==> !Paired(sh, k))
    && (forall k | k in result :: k in sh.tensors && Convertible(sh, k) && result[k] == Converted(sh, k))
  }

  predicate WeightsEndInWeight<T>(sh: Shard<T>) {
    forall k | k in sh.tensors && Weight(sh, k) :: EndsWith(k, WEIGHT)
  }

  lemma {:induction false} ScaleIsPaired<T>(sh: Shard<T>, name: string)
    requires name in sh.tensors && sh.fp8(sh.tensors[name])
    ensures Paired(sh, name + SCALE_INV) <==> EndsWith(name, WEIGHT)
  {
    var scale := name + SCALE_INV;
    assert scale[..|scale| - |SCALE_INV|] == name;
    assert WEIGHT_SCALE_INV == WEIGHT + SCALE_INV;
    if EndsWith(name, WEIGHT) {
      assert scale[|scale| - |WEIGHT_SCALE_INV|..] == name[|name| - |WEIGHT|..] + SCALE_INV;
    }
    if EndsWith(scale, WEIGHT_SCALE_INV) {
      var tail := scale[|scale| - |WEIGHT_SCALE_INV|..];
      assert |scale| - |WEIGHT_SCALE_INV| == |name| - |WEIGHT|;
      assert name[|name| - |WEIGHT|..] == tail[..|WEIGHT|];
    }
  }

  /** The part of the conversion that the keys seen so far account for. */
  ghost predicate Partial<T>(sh: Shard<T>, c: Conversion<T>, seen: set<string>) {
    && seen <= sh.tensors.Keys
    && (forall k | k in c.skipped && k in sh.tensors :: Paired(sh, k))
    && PartialMap(sh, c.converted, seen)
    && c.count == |Weights(sh, seen)|
  }

  ghost predicate PartialMap<T>(sh: Shard<T>, converted: map<string, T>, seen: set<string>)
    requires seen <= sh.tensors.Keys
  {
    && (forall k | k in seen :: k in converted <==> !Paired(sh, k))
    && (forall k | k in converted :: k in seen && Convertible(sh, k) && converted[k] == Converted(sh, k))
  }

  lemma {:induction false} PairedKey<T>(sh: Shard<T>, converted: map<string, T>, seen: set<string>, name: string)
    requires seen <= sh.tensors.Keys && name in sh.tensors
    requires PartialMap(sh, converted, seen) && name !in seen && Paired(sh, name)
    ensures PartialMap(sh, converted, seen + {name}) && Convertible(sh, name)
    ensures Weights(sh, seen + {name}) == Weights(sh, seen)
  {
    hide Paired;
  }

  lemma {:induction false} UnpairedKey<T>(sh: Shard<T>, converted: map<string, T>, seen: set<string>, name: string)
    requires seen <= sh.tensors.Keys && name in sh.tensors
    requires PartialMap(sh, converted, seen) && name !in seen && !Paired(sh, name) && Convertible(sh, name)
    ensures PartialMap(sh, converted[name := Converted(sh, name)], seen + {name})
    ensures Weights(sh, seen + {name}) == Weights(sh, seen) + if Weight(sh, name) then {name} else {}
  {
    hide Paired, Converted, Convertible;
  }

  lemma {:induction false} KeyConverts<T>(sh: Shard<T>, c: Conversion<T>, seen: set<string>, name: string)
    requires WeightsEndInWeight(sh) && Partial(sh, c, seen) && name in sh.tensors && name !in seen
    ensures var r := ConvertKey(sh, c, name);
      (r.Some? <==> Convertible(sh, name)) && (r.Some? ==> Partial(sh, r.value, seen + {name}))
  {
    hide PartialMap, Weights;
    if Paired(sh, name) {
      PairedKey(sh, c.converted, seen, name);
    } else {
      if sh.fp8(sh.tensors[name]) {
        ScaleIsPaired(sh, name);
      }
      hide Paired;
      if Convertible(sh, name) {
        UnpairedKey(sh, c.converted, seen, name);
        WeightsSeen(sh, seen, name);
      }
    }
  }

  lemma {:induction false} WeightsSeen<T>(sh: Shard<T>, seen: set<string>, name: string)
    requires name !in seen
    ensures name !in Weights(sh, seen)
  {
  }

  function Keys(keys: seq<string>): set<string> { set k | k in keys }

  lemma {:induction false} KeysConvert<T>(sh: Shard<T>, c: Conversion<T>, seen: set<string>, keys: seq<string>)
    requires WeightsEndInWeight(sh) && Partial(sh, c, seen)
    requires Distinct(keys) && forall k | k in keys :: k in sh.tensors && k !in seen
    ensures var r := Convert(sh, c, keys);
      && (r.Some? <==> forall k | k in keys :: Convertible(sh, k))
      && (r.Some? ==> Partial(sh, r.value, seen + Keys(keys)))
    decreases |keys|
  {
    hide Partial, ConvertKey, Convertible, WeightsEndInWeight;
    if keys == [] {
      assert seen + Keys(keys) == seen;
    } else {
      var name, rest := keys[0], keys[1..];
      KeyConverts(sh, c, seen, name);
      assert forall k | k in keys :: k == name || k in rest;
      assert forall k | k in rest :: k in keys && k != name;
      assert Distinct(rest);
      var next := ConvertKey(sh, c, name);
      if next.Some? {
        KeysConvert(sh, next.value, seen + {name}, rest);
        assert seen + {name} + Keys(rest) == seen + Keys(keys);
      }
    }
  }

  /** With every FP8 weight named `.weight`, the order of the keys does not matter: a
  shard converts exactly when every weight has a scale that fits, and then each weight
  is dequantised once, its scale is dropped and all else is kept unchanged. */
  lemma {:induction false} OrderDoesNotMatter<T>(sh: Shard<T>, keys: seq<string>)
    requires WeightsEndInWeight(sh) && OrderOf(keys, sh.tensors)
    ensures var r := Convert(sh, Conversion(map[], {}, 0), keys);
      && (r.Some? <==> AllConvertible(sh))
      && (r.Some? ==> ConvertedShard(sh, r.value.converted) && r.value.count == |Weights(sh, sh.tensors.Keys)|)
  {
    hide WeightsEndInWeight, Convertible, Partial, ConvertedShard, Convert, Weights;
    Start(sh);
    KeysConvert(sh, Conversion(map[], {}, 0), {}, keys);
    assert {} + Keys(keys) == sh.tensors.Keys;
    var r := Convert(sh, Conversion(map[], {}, 0), keys);
    if r.Some? {
      Complete(sh, r.value);
    }
  }

  lemma {:induction false} Start<T>(sh: Shard<T>)
    ensures Partial(sh, Conversion(map[], {}, 0), {})
  {
    assert Weights(sh, {}) == {};
  }

  lemma {:induction false} Complete<T>(sh: Shard<T>, c: Conversion<T>)
    requires Partial(sh, c, sh.tensors.Keys)
    ensures ConvertedShard(sh, c.converted) && c.count == |Weights(sh, sh.tensors.Keys)|
  {
    hide Paired, Convertible, Converted, Weights;
  }

  lemma {:induction false} ConvertedShardUnique<T>(sh: Shard<T>, a: map<string, T>, b: map<string, T>)
    requires ConvertedShard(sh, a) && ConvertedShard(sh, b)
    ensures a == b
  {
    hide Paired, Convertible, Converted;
    assert forall k | k in a :: k in b && a[k] == b[k];
    assert forall k | k in b :: k in a;
  }

  // ---------------------------------------------------------------------
  // When the order does matter.

  lemma {:induction false} NeverRaises<T>(sh: Shard<T>, c: Conversion<T>, keys: seq<string>)
    requires forall k | k in keys :: k in sh.tensors && Convertible(sh, k)
    ensures Convert(sh, c, keys).Some?
    ensures c.converted.Keys <= Convert(sh, c, keys).value.converted.Keys
    ensures forall s | s in c.skipped && s !in c.converted :: s !in Convert(sh, c, keys).value.converted
    decreases |keys|
  {
    if keys != [] {
      var next := ConvertKey(sh, c, keys[0]);
      assert Convertible(sh, keys[0]) && next.Some?;
      hide Paired, Convertible;
      assert forall s | s in c.skipped && s !in c.converted :: s in next.value.skipped && s !in next.value.converted;
      NeverRaises(sh, next.value, keys[1..]);
    }
  }

  function Without(keys: seq<string>, x: string): seq<string> {
    if keys == [] then [] else (if keys[0] == x then [] else [keys[0]]) + Without(keys[1..], x)
  }

  lemma {:induction false} WithoutIs(keys: seq<string>, x: string)
    requires Distinct(keys)
    ensures Distinct(Without(keys, x)) && forall k :: k in Without(keys, x) <==> k in keys && k != x
  {
    if keys != [] {
      var rest := Without(keys[1..], x);
      WithoutIs(keys[1..], x);
      assert keys == [keys[0]] + keys[1..];
      assert forall k | k in keys[1..] :: k != keys[0];
      hide Without;
      assert forall i | 0 <= i < |rest| :: rest[i] in rest;
    }
  }

  lemma {:induction false} Fronted<T>(m: map<string, T>, keys: seq<string>, x: string)
    requires OrderOf(keys, m) && x in m
    ensures OrderOf([x] + Without(keys, x), m)
  {
    assert Distinct(keys);
    WithoutIs(keys, x);
  }

  lemma {:induction false} WeightFirst<T>(sh: Shard<T>, name: string, rest: seq<string>)
    requires name in sh.tensors && Weight(sh, name)
    requires OrderOf([name] + rest, sh.tensors) && AllConvertible(sh)
    ensures var r := Convert(sh, Conversion(map[], {}, 0), [name] + rest);
      r.Some? && name + SCALE_INV !in r.value.converted
  {
    var keys := [name] + rest;
    assert keys[1..] == rest && name in keys;
    var first := ConvertKey(sh, Conversion(map[], {}, 0), name);
    assert |name + SCALE_INV| > |name|;
    assert forall k | k in rest :: k in keys;
    assert Convertible(sh, keys[0]);
    NeverRaises(sh, first.value, rest);
  }

  lemma {:induction false} ScaleFirst<T>(sh: Shard<T>, scale: string, rest: seq<string>)
    requires scale in sh.tensors && !Paired(sh, scale)
    requires OrderOf([scale] + rest, sh.tensors) && AllConvertible(sh)
    ensures var r := Convert(sh, Conversion(map[], {}, 0), [scale] + rest);
      r.Some? && scale in r.value.converted
  {
    var keys := [scale] + rest;
    assert keys[1..] == rest && scale in keys;
    var first := ConvertKey(sh, Conversion(map[], {}, 0), scale);
    assert forall k | k in rest :: k in keys;
    assert Convertible(sh, keys[0]);
    NeverRaises(sh, first.value, rest);
  }

  /** Main result. Where every weight has a scale that fits, all orders give the same
  map if and only if every FP8 weight's name ends in `.weight`. */
  lemma {:induction false} OrderMattersExactly<T>(sh: Shard<T>, keys: seq<string>)
    requires OrderOf(keys, sh.tensors) && AllConvertible(sh)
    ensures WeightsEndInWeight(sh) <==>
      forall a, b | OrderOf(a, sh.tensors) && OrderOf(b, sh.tensors) :: SameResult(sh, a, b)
  {
    hide Convertible, OrderOf, SameResult;
    if WeightsEndInWeight(sh) {
      forall a, b | OrderOf(a, sh.tensors) && OrderOf(b, sh.tensors) ensures SameResult(sh, a, b) {
        SameForBoth(sh, a, b);
      }
    } else {
      var name :| name in sh.tensors && Weight(sh, name) && !EndsWith(name, WEIGHT);
      DifferentOrders(sh, keys, name);
    }
  }

  lemma {:induction false} SameForBoth<T>(sh: Shard<T>, a: seq<string>, b: seq<string>)
    requires WeightsEndInWeight(sh) && OrderOf(a, sh.tensors) && OrderOf(b, sh.tensors)
    requires AllConvertible(sh)
    ensures SameResult(sh, a, b)
  {
    hide ConvertedShard, WeightsEndInWeight, Convertible;
    OrderDoesNotMatter(sh, a);
    OrderDoesNotMatter(sh, b);
    var x, y := Convert(sh, Conversion(map[], {}, 0), a), Convert(sh, Conversion(map[], {}, 0), b);
    ConvertedShardUnique(sh, x.value.converted, y.value.converted);
  }

  ghost predicate SameResult<T>(sh: Shard<T>, a: seq<string>, b: seq<string>)
    requires OrderOf(a, sh.tensors) && OrderOf(b, sh.tensors)
  {
    var x, y := Convert(sh, Conversion(map[], {}, 0), a), Convert(sh, Conversion(map[], {}, 0), b);
    x.Some? && y.Some? && x.value.converted == y.value.converted
  }

  lemma {:induction false} DifferentOrders<T>(sh: Shard<T>, keys: seq<string>, name: string)
    requires OrderOf(keys, sh.tensors) && AllConvertible(sh)
    requires name in sh.tensors && Weight(sh, name) && !EndsWith(name, WEIGHT)
    ensures exists a, b :: OrderOf(a, sh.tensors) && OrderOf(b, sh.tensors) && !SameResult(sh, a, b)
  {
    hide OrderOf, SameResult, EndsWith, Without;
    Fronted(sh.tensors, keys, name);
    Fronted(sh.tensors, keys, ScaleOf(sh, name));
    Differ(sh, name, Without(keys, name), Without(keys, ScaleOf(sh, name)));
  }

  /** A weight's scale, which is not recognised by its name. */
  function ScaleOf<T>(sh: Shard<T>, name: string): (scale: string)
    requires AllConvertible(sh) && name in sh.tensors && Weight(sh, name) && !EndsWith(name, WEIGHT)
    ensures scale == name + SCALE_INV && scale in sh.tensors && !Paired(sh, scale)
  {
    assert Convertible(sh, name);
    ScaleIsPaired(sh, name);
    name + SCALE_INV
  }

  lemma {:induction false} Differ<T>(sh: Shard<T>, name: string, x: seq<string>, y: seq<string>)
    requires AllConvertible(sh) && name in sh.tensors && Weight(sh, name) && !EndsWith(name, WEIGHT)
    requires OrderOf([name] + x, sh.tensors) && OrderOf([ScaleOf(sh, name)] + y, sh.tensors)
    ensures !SameResult(sh, [name] + x, [ScaleOf(sh, name)] + y)
  {
    var scale := ScaleOf(sh, name);
    hide Paired, AllConvertible, OrderOf, Weight, Convert, EndsWith;
    WeightFirst(sh, name, x);
    ScaleFirst(sh, scale, y);
  }
}
