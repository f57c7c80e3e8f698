/** The JSON fallback of the DSML detector: brace counting over the buffer
(lines 763-793, 421-460 and 859-891 of deepseekv32_detector.cpp). */
module DsmlJson {
  import opened Text

  const BRACE: string := "{"

  /** The counters of the scan. */
  datatype Scan = Scan(depth: int, inString: bool, escaped: bool)

  const START: Scan := Scan(0, false, false)

  function Advance(st: Scan, c: char): Scan {
    if st.escaped then st.(escaped := false)
    else if c == '\\' then st.(escaped := true)
    else if c == '"' then st.(inString := !st.inString)
    else if st.inString then st
    else if c == '{' then st.(depth := st.depth + 1)
    else if c == '}' then st.(depth := st.depth - 1)
    else st
  }

  /** The counters after `s[from..]`. */
  function ScanAll(s: string, from: nat, st: Scan): Scan
    requires from <= |s|
    decreases |s| - from
  {
    if from == |s| then st else ScanAll(s, from + 1, Advance(st, s[from]))
  }

  /** Does the character close the block: a counted brace that brings the depth to 0? */
  predicate Closes(st: Scan, c: char) {
    c == '}' && !st.escaped && !st.inString && st.depth == 1
  }

  /** Position of the brace that closes the block, scanning on from `from`. */
  function CloseFrom(s: string, from: nat, st: Scan): (r: Option<nat>)
    requires from <= |s|
    ensures r.Some? ==> from <= r.value < |s| && s[r.value] == '}'
    decreases |s| - from
  {
    if from == |s| then None
    else if Closes(st, s[from]) then Some(from)
    else CloseFrom(s, from + 1, Advance(st, s[from]))
  }

  /** The block that starts with the first `{`: its position and the position of
  its closing brace. */
  function Block(s: string): (r: Option<(nat, nat)>)
    ensures r.Some? ==> r.value.0 <= r.value.1 < |s|
  {
    match Find(s, BRACE, 0)
    case None => None
    case Some(open) =>
      match CloseFrom(s, open, START)
      case None => None
      case Some(close) => Some((open, close))
  }

  /** `potentially_json_block`. */
  predicate BlockOpen(s: string) {
    match Find(s, BRACE, 0)
    case None => false
    case Some(open) => ScanAll(s, open, START).depth > 0
  }

  method CountBraces(s: string) returns (open: bool)
    ensures open == BlockOpen(s)
  {
    var first := Find(s, BRACE, 0);
    if first.None? {
      return false;
    }
    var st := START;
    var i := first.value;
    while i < |s|
      invariant first.value <= i <= |s|
      invariant ScanAll(s, i, st) == ScanAll(s, first.value, START)
    {
      st := Advance(st, s[i]);
      i := i + 1;
    }
    return st.depth > 0;
  }

  /** The scan for the matching brace, stopping at depth 0. The depth it reports
  is 0 exactly when it found the brace. */
  method MatchBrace(s: string, open: nat) returns (depth: int, end: nat)
    requires open < |s| && s[open] == '{'
    ensures depth == 0 <==> CloseFrom(s, open, START).Some?
    ensures depth == 0 ==> end == CloseFrom(s, open, START).value
  {
    var st := START;
    var i := open;
    end := open;
    while i < |s|
      invariant open <= i <= |s|
      invariant CloseFrom(s, i, st) == CloseFrom(s, open, START)
      invariant if i == open then st == START else st.depth >= 1
    {
      if Closes(st, s[i]) {
        return 0, i;
      }
      st := Advance(st, s[i]);
      i := i + 1;
    }
    depth := st.depth;
  }

  /** If the depth is positive now and not positive at the end, it returned to 0
  in between. */
  lemma {:induction false} DepthReturns(s: string, from: nat, st: Scan)
    requires from <= |s| && st.depth > 0
    requires CloseFrom(s, from, st).None?
    ensures ScanAll(s, from, st).depth > 0
    decreases |s| - from
  {
    if from < |s| {
      DepthReturns(s, from + 1, Advance(st, s[from]));
    }
  }

  /** A block that is not open is there and closed: when the whole buffer ends at
  depth 0 or less and holds a `{`, the search for the matching brace succeeds. */
  lemma {:induction false} NotOpenIsClosed(s: string)
    requires Has(s, BRACE) && !BlockOpen(s)
    ensures Block(s).Some?
  {
    var open := Find(s, BRACE, 0).value;
    assert s[open] == s[open..open + 1][0];
    if CloseFrom(s, open, START).None? {
      DepthReturns(s, open + 1, Advance(START, s[open]));
    }
  }

  /** The text around a closed block, the block itself starting at the first brace. */
  lemma {:induction false} BlockCut(s: string) returns (prefix: string, block: string, suffix: string)
    requires Has(s, BRACE) && !BlockOpen(s)
    ensures Block(s) == Some((|prefix|, |prefix| + |block| - 1))
    ensures s == prefix + block + suffix
    ensures prefix == s[..|prefix|] && block == s[|prefix|..|prefix| + |block|] && suffix == s[|prefix| + |block|..]
    ensures |block| >= 2 && block[0] == '{' && block[|block| - 1] == '}' && !Has(prefix, BRACE)
  {
    NotOpenIsClosed(s);
    hide ScanAll, CloseFrom;
    var (open, close) := Block(s).value;
    prefix, block, suffix := s[..open], s[open..close + 1], s[close + 1..];
    assert s[open] == s[open..open + 1][0];
    assert s[close] == '}';
    forall p | 0 <= p < open ensures !OccursAt(prefix, BRACE, p) {
      assert !OccursAt(s, BRACE, p);
      assert s[p..p + 1] == prefix[p..p + 1];
    }
  }
}
