/** The pairing loop of the MTP exporter: each scale is folded into its weight, in
dictionary order. */
module MtpPairing {
  import opened Text
  import opened ShardConversion

  const SCALE: string := "weight_scale_inv"
  const WEIGHT_WORD: string := "weight"

  /** `str.replace`: every occurrence, from the left. */
  function Replace(s: string, pat: string, word: string): string
    requires pat != ""
    decreases |s|
  {
    match Find(s, pat, 0)
    case None => s
    case Some(p) => s[..p] + word + Replace(s[p + |pat|..], pat, word)
  }

  /** The parameters, whether this model type has block scales, and `block_dequant`,
  which may raise. */
  datatype Export<!T> = Export(params: map<string, T>, scaled: bool, dequant: (T, T) -> Option<T>)

  predicate IsScale<T>(e: Export<T>, key: string) { e.scaled && Has(key, SCALE) }

  function TargetOf(key: string): string { Replace(key, SCALE, WEIGHT_WORD) }

  /** One key; `None` when dequantising raises. */
  function PairKey<T>(e: Export<T>, out: map<string, T>, key: string): Option<map<string, T>>
    requires key in e.params
  {
    if IsScale(e, key) then
      if TargetOf(key) !in e.params then Some(out)
      else
        match e.dequant(e.params[TargetOf(key)], e.params[key])
        case None => None
        case Some(w) => Some(out[TargetOf(key) := w])
    else if key !in out then Some(out[key := e.params[key]])
    else Some(out)
  }

  function Pair<T>(e: Export<T>, out: map<string, T>, keys: seq<string>): Option<map<string, T>>
    requires forall k | k in keys :: k in e.params
    decreases |keys|
  {
    if keys == [] then Some(out)
    else
      match PairKey(e, out, keys[0])
      case None => None
      case Some(next) => Pair(e, next, keys[1..])
  }

  method PairParams<T>(e: Export<T>, keys: seq<string>) returns (r: Option<map<string, T>>)
    requires OrderOf(keys, e.params)
    ensures r == Pair(e, map[], keys)
  {
    hide Has, Replace;
    var out: map<string, T> := map[];
    var i := 0;
    while i < |keys|
      invariant 0 <= i <= |keys|
      invariant Pair(e, map[], keys) == Pair(e, out, keys[i..])
    {
      var key := keys[i];
      assert keys[i..][0] == key && keys[i..][1..] == keys[i + 1..];
      if Has(key, SCALE) && e.scaled {
        var target := Replace(key, SCALE, WEIGHT_WORD);
        if target in e.params {
          var w := e.dequant(e.params[target], e.params[key]);
          if w.None? {
            return None;
          }
          out := out[target := w.value];
        }
      } else if key !in out {
        out := out[key := e.params[key]];
      }
      i := i + 1;
    }
    return Some(out);
  }

  // ---------------------------------------------------------------------
  // What pairing should give.

  predicate Pairs<T>(e: Export<T>, scale: string, weight: string) {
    scale in e.params && weight in e.params && IsScale(e, scale) && TargetOf(scale) == weight
  }

  predicate Foldable<T>(e: Export<T>, scale: string)
    requires scale in e.params
  {
    Pairs(e, scale, TargetOf(scale)) ==> e.dequant(e.params[TargetOf(scale)], e.params[scale]).Some?
  }

  /** All scales of one weight dequantise it to the same. */
  ghost predicate Agree<T>(e: Export<T>) {
    forall a, b, w | Pairs(e, a, w) && Pairs(e, b, w) ::
      e.dequant(e.params[w], e.params[a]) == e.dequant(e.params[w], e.params[b])
  }

  ghost predicate HasScale<T>(e: Export<T>, seen: set<string>, weight: string) {
    exists s :: s in seen && Pairs(e, s, weight)
  }

  ghost predicate Folded<T>(e: Export<T>, out: map<string, T>, seen: set<string>) {
    forall s, w | s in seen && Pairs(e, s, w) :: w in out && Some(out[w]) == e.dequant(e.params[w], e.params[s])
  }

  ghost predicate Kept<T>(e: Export<T>, out: map<string, T>, seen: set<string>) {
    forall k | k in seen && k in e.params && !IsScale(e, k) && !HasScale(e, seen, k) ::
      k in out && out[k] == e.params[k]
  }

  ghost predicate NothingElse<T>(e: Export<T>, out: map<string, T>, seen: set<string>) {
    forall k | k in out :: k in e.params && ((k in seen && !IsScale(e, k)) || HasScale(e, seen, k))
  }

  /** What `out` holds after the keys in `seen`: a weight with a scale dequantised by
  it, other keys unchanged, no scales. */
  ghost predicate PairedSoFar<T>(e: Export<T>, out: map<string, T>, seen: set<string>) {
    Folded(e, out, seen) && Kept(e, out, seen) && NothingElse(e, out, seen)
  }

  lemma {:induction false} ScaleSeen<T>(e: Export<T>, seen: set<string>, key: string, weight: string)
    ensures HasScale(e, seen + {key}, weight) <==> HasScale(e, seen, weight) || Pairs(e, key, weight)
  {
    hide Pairs;
    if Pairs(e, key, weight) {
      assert key in seen + {key};
    }
    if HasScale(e, seen, weight) {
      var s :| s in seen && Pairs(e, s, weight);
      assert s in seen + {key};
    }
  }

  lemma {:induction false} KeyPairs<T>(e: Export<T>, out: map<string, T>, seen: set<string>, key: string)
    requires Agree(e) && PairedSoFar(e, out, seen) && key in e.params && key !in seen
    ensures var r := PairKey(e, out, key);
      (r.Some? <==> Foldable(e, key)) && (r.Some? ==> PairedSoFar(e, r.value, seen + {key}))
  {
    hide IsScale, TargetOf, PairedSoFar, Agree;
    if !IsScale(e, key) {
      PlainKey(e, out, seen, key);
    } else if TargetOf(key) in e.params {
      if Foldable(e, key) {
        ScaleKey(e, out, seen, key);
      }
    } else {
      LooseKey(e, out, seen, key);
    }
  }

  /** A scale without a weight changes nothing. */
  lemma {:induction false} LooseKey<T>(e: Export<T>, out: map<string, T>, seen: set<string>, key: string)
    requires PairedSoFar(e, out, seen) && IsScale(e, key) && forall w :: !Pairs(e, key, w)
    ensures PairedSoFar(e, out, seen + {key})
  {
    forall k ensures HasScale(e, seen + {key}, k) <==> HasScale(e, seen, k) {
      ScaleSeen(e, seen, key, k);
    }
    hide HasScale, Pairs, IsScale;
  }

  lemma {:induction false} PlainKey<T>(e: Export<T>, out: map<string, T>, seen: set<string>, key: string)
    requires PairedSoFar(e, out, seen) && key in e.params && key !in seen && !IsScale(e, key)
    ensures PairedSoFar(e, if key in out then out else out[key := e.params[key]], seen + {key})
  {
    assert forall w :: !Pairs(e, key, w);
    forall k ensures HasScale(e, seen + {key}, k) <==> HasScale(e, seen, k) {
      ScaleSeen(e, seen, key, k);
    }
    PlainFolded(e, out, seen, key);
    if HasScale(e, seen, key) {
      var s :| s in seen && Pairs(e, s, key);
      assert key in out;
    }
    hide HasScale, Pairs, IsScale, Folded;
    assert Kept(e, if key in out then out else out[key := e.params[key]], seen + {key});
  }

  lemma {:induction false} PlainFolded<T>(e: Export<T>, out: map<string, T>, seen: set<string>, key: string)
    requires Folded(e, out, seen) && key in e.params && forall w :: !Pairs(e, key, w)
    ensures Folded(e, if key in out then out else out[key := e.params[key]], seen + {key})
  {
    hide Pairs;
  }

  lemma {:induction false} ScaleKey<T>(e: Export<T>, out: map<string, T>, seen: set<string>, key: string)
    requires Agree(e) && PairedSoFar(e, out, seen) && key in e.params && key !in seen
    requires Pairs(e, key, TargetOf(key)) && Foldable(e, key)
    ensures PairedSoFar(e, out[TargetOf(key) := e.dequant(e.params[TargetOf(key)], e.params[key]).value], seen + {key})
  {
    var weight, now := TargetOf(key), seen + {key};
    forall k ensures HasScale(e, now, k) <==> HasScale(e, seen, k) || k == weight {
      assert Pairs(e, key, k) <==> k == weight;
      ScaleSeen(e, seen, key, k);
    }
    assert IsScale(e, key) && weight in e.params;
    FoldedNext(e, out, seen, key, weight);
    hide HasScale, Pairs, IsScale, TargetOf, Folded, Agree, Foldable;
    OthersNext(e, out, seen, key, weight, e.dequant(e.params[weight], e.params[key]).value);
  }

  lemma {:induction false} OthersNext<T>(e: Export<T>, out: map<string, T>, seen: set<string>, key: string,
                                      weight: string, v: T)
    requires Kept(e, out, seen) && NothingElse(e, out, seen) && IsScale(e, key) && weight in e.params
    requires forall k :: HasScale(e, seen + {key}, k) <==> HasScale(e, seen, k) || k == weight
    ensures Kept(e, out[weight := v], seen + {key}) && NothingElse(e, out[weight := v], seen + {key})
  {
    hide HasScale, IsScale;
  }

  lemma {:induction false} FoldedNext<T>(e: Export<T>, out: map<string, T>, seen: set<string>, key: string,
                                      weight: string)
    requires Agree(e) && Folded(e, out, seen) && Pairs(e, key, weight) && Foldable(e, key)
    requires e.dequant(e.params[weight], e.params[key]).Some?
    ensures Folded(e, out[weight := e.dequant(e.params[weight], e.params[key]).value], seen + {key})
  {
    var next := out[weight := e.dequant(e.params[weight], e.params[key]).value];
    forall s, w | s in seen + {key} && Pairs(e, s, w)
      ensures w in next && Some(next[w]) == e.dequant(e.params[w], e.params[s])
    {
      if w == weight {
        assert e.dequant(e.params[w], e.params[s]) == e.dequant(e.params[w], e.params[key]);
      }
    }
  }

  lemma {:induction false} KeysPair<T>(e: Export<T>, out: map<string, T>, seen: set<string>, keys: seq<string>)
    requires Agree(e) && PairedSoFar(e, out, seen)
    requires Distinct(keys) && forall k | k in keys :: k in e.params && k !in seen
    ensures var r := Pair(e, out, keys);
      && (r.Some? <==> forall k | k in keys :: Foldable(e, k))
      && (r.Some? ==> PairedSoFar(e, r.value, seen + Keys(keys)))
    decreases |keys|
  {
    hide PairedSoFar, PairKey, Foldable, Agree;
    if keys == [] {
      assert seen + Keys(keys) == seen;
    } else {
      var key, rest := keys[0], keys[1..];
      KeyPairs(e, out, seen, key);
      assert forall k | k in keys :: k == key || k in rest;
      assert forall k | k in rest :: k in keys && k != key;
      assert Distinct(rest);
      var next := PairKey(e, out, key);
      if next.Some? {
        KeysPair(e, next.value, seen + {key}, rest);
        assert seen + {key} + Keys(rest) == seen + Keys(keys);
      }
    }
  }

  lemma {:induction false} PairedUnique<T>(e: Export<T>, a: map<string, T>, b: map<string, T>, seen: set<string>)
    requires PairedSoFar(e, a, seen) && PairedSoFar(e, b, seen)
    ensures a == b
  {
    hide Pairs, IsScale;
    forall k | k in a ensures k in b && a[k] == b[k] {
      if HasScale(e, seen, k) {
        var s :| s in seen && Pairs(e, s, k);
        assert Some(a[k]) == Some(b[k]);
      }
    }
    assert forall k | k in b :: HasScale(e, seen, k) || k in a;
    forall k | k in b ensures k in a {
      if HasScale(e, seen, k) {
        var s :| s in seen && Pairs(e, s, k);
      }
    }
  }

  // ---------------------------------------------------------------------
  // Exactly when the order of the dictionary does not matter.

  ghost predicate SamePairs<T>(e: Export<T>, a: seq<string>, b: seq<string>)
    requires OrderOf(a, e.params) && OrderOf(b, e.params)
  {
    var x, y := Pair(e, map[], a), Pair(e, map[], b);
    x.Some? && y.Some? && x.value == y.value
  }

  lemma {:induction false} PairLast<T>(e: Export<T>, out: map<string, T>, keys: seq<string>, key: string)
    requires key in e.params && forall k | k in keys :: k in e.params
    ensures Pair(e, out, keys + [key])
         == match Pair(e, out, keys) case None => None case Some(o) => PairKey(e, o, key)
    decreases |keys|
  {
    hide PairKey;
    if keys == [] {
      assert keys + [key] == [key] && [key][1..] == [];
      var r := PairKey(e, out, key);
      if r.Some? {
        assert Pair(e, r.value, []) == Some(r.value);
      }
    } else {
      assert (keys + [key])[0] == keys[0] && (keys + [key])[1..] == keys[1..] + [key];
      var next := PairKey(e, out, keys[0]);
      if next.Some? {
        PairLast(e, next.value, keys[1..], key);
      }
    }
  }

  lemma {:induction false} BackOf<T>(m: map<string, T>, keys: seq<string>, x: string)
    requires OrderOf(keys, m) && x in m
    ensures OrderOf(Without(keys, x) + [x], m)
  {
    assert Distinct(keys);
    WithoutIs(keys, x);
    var w := Without(keys, x);
    hide Without;
    assert forall i | 0 <= i < |w| :: w[i] in w;
  }

  /** A scale that comes last decides. */
  lemma {:induction false} LastScaleDecides<T>(e: Export<T>, keys: seq<string>, scale: string, weight: string)
    requires OrderOf(keys, e.params) && Pairs(e, scale, weight)
    ensures var order := Without(keys, scale) + [scale];
      && OrderOf(order, e.params)
      && (Pair(e, map[], order).Some? ==>
            weight in Pair(e, map[], order).value
            && Some(Pair(e, map[], order).value[weight]) == e.dequant(e.params[weight], e.params[scale]))
  {
    BackOf(e.params, keys, scale);
    var before := Without(keys, scale);
    hide Without;
    assert forall k | k in before :: k in before + [scale];
    PairLast(e, map[], before, scale);
  }

  lemma {:induction false} SameForAll<T>(e: Export<T>, a: seq<string>, b: seq<string>)
    requires Agree(e) && OrderOf(a, e.params) && OrderOf(b, e.params)
    requires forall k | k in e.params :: Foldable(e, k)
    ensures SamePairs(e, a, b)
  {
    hide PairedSoFar, Agree, Foldable;
    Nothing(e);
    KeysPair(e, map[], {}, a);
    KeysPair(e, map[], {}, b);
    assert {} + Keys(a) == e.params.Keys == {} + Keys(b);
    PairedUnique(e, Pair(e, map[], a).value, Pair(e, map[], b).value, e.params.Keys);
  }

  lemma {:induction false} Nothing<T>(e: Export<T>)
    ensures PairedSoFar(e, map[], {})
  {
  }

  /** Main result. Provided no dequantisation raises, every order of the dictionary
  gives the same parameters if and only if the scales of each weight agree; in
  particular when no two keys name the same weight. */
  lemma {:induction false} OrderOfPairs<T>(e: Export<T>, keys: seq<string>)
    requires OrderOf(keys, e.params) && forall k | k in e.params :: Foldable(e, k)
    ensures Agree(e) <==> forall a, b | OrderOf(a, e.params) && OrderOf(b, e.params) :: SamePairs(e, a, b)
  {
    if Agree(e) {
      hide OrderOf, Agree, Foldable, SamePairs;
      forall a, b | OrderOf(a, e.params) && OrderOf(b, e.params) ensures SamePairs(e, a, b) {
        SameForAll(e, a, b);
      }
    } else {
      var s, t, w :| Pairs(e, s, w) && Pairs(e, t, w)
        && e.dequant(e.params[w], e.params[s]) != e.dequant(e.params[w], e.params[t]);
      DifferentPairs(e, keys, s, t, w);
    }
  }

  lemma {:induction false} DifferentPairs<T>(e: Export<T>, keys: seq<string>, s: string, t: string, w: string)
    requires OrderOf(keys, e.params) && Pairs(e, s, w) && Pairs(e, t, w)
    requires e.dequant(e.params[w], e.params[s]) != e.dequant(e.params[w], e.params[t])
    ensures exists a, b :: OrderOf(a, e.params) && OrderOf(b, e.params) && !SamePairs(e, a, b)
  {
    LastScaleDecides(e, keys, s, w);
    LastScaleDecides(e, keys, t, w);
    hide OrderOf, Pairs, Pair;
    assert !SamePairs(e, Without(keys, s) + [s], Without(keys, t) + [t]);
  }

  /** And then the result is as it should be. */
  lemma {:induction false} PairsFold<T>(e: Export<T>, keys: seq<string>)
    requires Agree(e) && OrderOf(keys, e.params)
    ensures var r := Pair(e, map[], keys);
      && (r.Some? <==> forall k | k in e.params :: Foldable(e, k))
      && (r.Some? ==> PairedSoFar(e, r.value, e.params.Keys))
  {
    hide PairedSoFar, Agree, Foldable;
    Nothing(e);
    KeysPair(e, map[], {}, keys);
    assert {} + Keys(keys) == e.params.Keys;
  }
}
