/** Byte strings and the string searches the parsers are built on.

A `char` stands for one byte, so a `string` is a byte string.
*/
module Text {

  datatype Option<+T> = None | Some(value: T)

  predicate OccursAt(s: string, pat: string, p: int) {
    0 <= p <= |s| - |pat| && s[p..p + |pat|] == pat
  }

  ghost predicate Occurs(s: string, pat: string) {
    exists p :: OccursAt(s, pat, p)
  }

  /** `std::string::find`: the least match at or after `from`. */
  function Find(s: string, pat: string, from: nat): (r: Option<nat>)
    ensures r.None? ==> forall p :: from <= p ==> !OccursAt(s, pat, p)
    ensures r.Some? ==> from <= r.value && OccursAt(s, pat, r.value)
    ensures r.Some? ==> forall p :: from <= p < r.value ==> !OccursAt(s, pat, p)
    decreases |s| - from
  {
    if from + |pat| > |s| then None
    else if s[from..from + |pat|] == pat then Some(from)
    else Find(s, pat, from + 1)
  }

  predicate Has(s: string, pat: string)
    ensures Has(s, pat) <==> Occurs(s, pat)
  {
    Find(s, pat, 0).Some?
  }

  /** A result satisfying the specification of `Find` is the result of `Find`. */
  lemma {:induction false} FindIs(s: string, pat: string, from: nat, at: nat)
    requires from <= at && OccursAt(s, pat, at)
    requires forall p :: from <= p < at ==> !OccursAt(s, pat, p)
    ensures Find(s, pat, from) == Some(at)
  {
  }

  lemma {:induction false} FindIsNone(s: string, pat: string, from: nat)
    requires forall p :: from <= p ==> !OccursAt(s, pat, p)
    ensures Find(s, pat, from).None?
  {
  }

  /** An occurrence inside a slice is an occurrence in the whole, shifted. */
  lemma {:induction false} OccursAtShift(a: string, b: string, c: string, pat: string, p: int)
    requires 0 <= p <= |b| - |pat|
    ensures OccursAt(b, pat, p) <==> OccursAt(a + b + c, pat, |a| + p)
  {
    var s := a + b + c;
    assert s[|a| + p..|a| + p + |pat|] == b[p..p + |pat|];
  }

  lemma {:induction false} OccursInWhole(a: string, b: string, c: string, pat: string)
    requires Has(b, pat)
    ensures Has(a + b + c, pat)
  {
    var p :| OccursAt(b, pat, p);
    OccursAtShift(a, b, c, pat, p);
  }

  lemma {:induction false} OccursShifted(a: string, b: string, pat: string, p: int)
    requires 0 <= p
    ensures OccursAt(b, pat, p) <==> OccursAt(a + b, pat, |a| + p)
  {
    if p <= |b| - |pat| {
      assert (a + b)[|a| + p..|a| + p + |pat|] == b[p..p + |pat|];
    }
  }

  /** Searching from `|a|` in `a + b` is searching `b`, shifted. */
  lemma {:induction false} FindShift(a: string, b: string, pat: string, from: nat)
    ensures Find(a + b, pat, |a| + from)
         == (match Find(b, pat, from) case None => None case Some(p) => Some(|a| + p))
  {
    hide Find, OccursAt;
    forall q: int | |a| + from <= q ensures OccursAt(a + b, pat, q) <==> OccursAt(b, pat, q - |a|) {
      OccursShifted(a, b, pat, q - |a|);
    }
    match Find(b, pat, from)
    case None => FindIsNone(a + b, pat, |a| + from);
    case Some(p) => FindIs(a + b, pat, |a| + from, |a| + p);
  }

  /** A match that is found stays the first one when the text grows. */
  lemma {:induction false} FindGrows(s: string, t: string, pat: string, from: nat)
    requires Find(s, pat, from).Some?
    ensures Find(s + t, pat, from) == Find(s, pat, from)
  {
    var at := Find(s, pat, from).value;
    forall p | from <= p <= at ensures OccursAt(s, pat, p) <==> OccursAt(s + t, pat, p) {
      OccursAtShift("", s, t, pat, p);
      assert "" + s + t == s + t;
    }
    FindIs(s + t, pat, from, at);
  }

  predicate StartsWith(s: string, pat: string) {
    |pat| <= |s| && s[..|pat|] == pat
  }

  predicate EndsWith(s: string, pat: string) {
    |pat| <= |s| && s[|s| - |pat|..] == pat
  }

  lemma {:induction false} Regroup(s: string, n: nat, j: nat)
    requires n + j <= |s|
    ensures s[..n + j] == s[..n] + s[n..][..j]
    ensures s[n..][j..] == s[n + j..]
  {
  }

  lemma {:induction false} SliceOfSlice(s: string, n: nat, i: nat, j: nat)
    requires n <= |s| && i <= j <= |s| - n
    ensures s[n..][i..j] == s[n + i..n + j]
  {
  }

  lemma {:induction false} Extend(s: string, a: nat, b: nat, c: nat)
    requires a <= b <= c <= |s|
    ensures s[a..c] == s[a..b] + s[b..c]
  {
  }

  lemma {:induction false} Window(s: string, a: nat, b: nat, i: nat, j: nat)
    requires a <= b <= |s| && i <= j <= b - a
    ensures s[a..b][i..j] == s[a + i..a + j]
  {
    assert |s[a..b][i..j]| == |s[a + i..a + j]|;
    forall k | 0 <= k < j - i ensures s[a..b][i..j][k] == s[a + i..a + j][k] {}
  }

  function Flatten(chunks: seq<string>): string {
    if chunks == [] then "" else chunks[0] + Flatten(chunks[1..])
  }

  lemma {:induction false} FlattenAppend(a: seq<string>, b: seq<string>)
    ensures Flatten(a + b) == Flatten(a) + Flatten(b)
  {
    if a == [] {
      assert a + b == b;
    } else {
      assert (a + b)[1..] == a[1..] + b;
      FlattenAppend(a[1..], b);
    }
  }

  /** Trimming, with the set of characters the caller trims. */
  function TrimLeft(s: string, blank: set<char>): (r: string)
    ensures |r| <= |s| && r == s[|s| - |r|..]
    ensures r != "" ==> r[0] !in blank
    ensures s != "" && s[|s| - 1] !in blank ==> r != ""
  {
    if s != "" && s[0] in blank then
      var r := TrimLeft(s[1..], blank);
      assert s[1..][|s| - 1 - |r|..] == s[|s| - |r|..];
      r
    else s
  }

  function TrimRight(s: string, blank: set<char>): (r: string)
    ensures |r| <= |s| && r == s[..|r|]
    ensures r != "" ==> r[|r| - 1] !in blank
  {
    if s != "" && s[|s| - 1] in blank then
      var r := TrimRight(s[..|s| - 1], blank);
      assert s[..|s| - 1][..|r|] == s[..|r|];
      r
    else s
  }

  function Trim(s: string, blank: set<char>): (r: string)
    ensures |r| <= |s|
    ensures r != "" ==> r[0] !in blank && r[|r| - 1] !in blank
    ensures (s == "" || (s[0] !in blank && s[|s| - 1] !in blank)) ==> r == s
  {
    var l := TrimLeft(s, blank);
    var r := TrimRight(l, blank);
    assert r != "" ==> r[0] == l[0];
    r
  }

  /** Trimming does not touch a last character that is not blank. */
  lemma {:induction false} TrimKeepsLast(s: string, blank: set<char>)
    requires s != "" && s[|s| - 1] !in blank
    ensures Trim(s, blank) != "" && Trim(s, blank)[|Trim(s, blank)| - 1] == s[|s| - 1]
  {
    assert TrimLeft(s, blank) != "";
  }

  /** The first character of `token` occurs nowhere else in it. */
  predicate IsMarker(token: string) {
    token != "" && forall k | 1 <= k < |token| :: token[k] != token[0]
  }

  /** A marker is found where it was put, unless it occurs in the text before:
  none can straddle the end of that text. */
  lemma {:induction false} MarkerFound(a: string, token: string, b: string)
    requires IsMarker(token) && !Has(a, token)
    ensures Find(a + token + b, token, 0) == Some(|a|)
  {
    hide Has;
    var s := a + token + b;
    assert s[|a|..|a| + |token|] == token;
    forall p | 0 <= p < |a| ensures !OccursAt(s, token, p) {
      if p + |token| <= |a| {
        assert !OccursAt(a, token, p);
        assert a[p..p + |token|] == s[p..p + |token|];
      } else if p + |token| <= |s| {
        assert s[p..p + |token|][|a| - p] == s[|a|];
      }
    }
    FindIs(s, token, 0, |a|);
  }

  /** Searching from `from` is searching the rest. */
  lemma {:induction false} FindInRest(s: string, pat: string, from: nat)
    requires from <= |s|
    ensures Find(s, pat, from) == (match Find(s[from..], pat, 0) case None => None case Some(p) => Some(from + p))
  {
    assert s == s[..from] + s[from..];
    FindShift(s[..from], s[from..], pat, 0);
  }
}
