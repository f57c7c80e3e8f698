/** Holding back an incomplete UTF-8 character at the end of a chunk
(`split_incomplete_utf8` and the first lines of `parse_streaming_increment`).

The bit tests of the source are written as divisions: `c & 0xC0 == 0x80` is
`c / 64 == 2`, `c & 0xE0 == 0xC0` is `c / 32 == 6`, and so on.
*/
module Utf8 {
  import opened Text

  predicate IsContinuation(c: char) { c as int / 64 == 2 }

  /** Bytes of the character that starts with `c`; 0 if no character does. */
  function CharLength(c: char): (n: nat)
    ensures n <= 4
    ensures n > 0 ==> !IsContinuation(c)
  {
    var b := c as int;
    if b / 128 == 0 then 1
    else if b / 32 == 6 then 2
    else if b / 16 == 14 then 3
    else if b / 8 == 30 then 4
    else 0
  }

  predicate Continuations(s: string) { forall i | 0 <= i < |s| :: IsContinuation(s[i]) }

  /** `s` starts with one whole character of `n` bytes. */
  predicate StartsWithChar(s: string, n: nat) {
    0 < n <= |s| && CharLength(s[0]) == n && Continuations(s[1..n])
  }

  /** A sequence of whole characters: the lead byte announces the length
  (section 3 of RFC 3629). Overlong forms and surrogates are not excluded. */
  predicate Complete(s: string) {
    s == "" || (StartsWithChar(s, CharLength(s[0])) && Complete(s[CharLength(s[0])..]))
  }

  /** A non-empty proper prefix of one character. */
  predicate PartialChar(s: string) {
    s != "" && |s| < CharLength(s[0]) && Continuations(s[1..])
  }

  lemma {:induction false} CompleteAppend(a: string, b: string)
    requires Complete(a)
    ensures Complete(a + b) <==> Complete(b)
    decreases |a|
  {
    if a == "" {
      assert a + b == b;
    } else {
      var n := CharLength(a[0]);
      CompleteAppend(a[n..], b);
      assert (a + b)[1..n] == a[1..n];
      assert (a + b)[n..] == a[n..] + b;
    }
  }

  /** The held back tail: what `split_incomplete_utf8` does with the last lead
  byte it finds among the last four bytes. */
  function LeadDistance(s: string, i: nat): (r: Option<nat>)
    requires 1 <= i
    ensures r.Some? ==> i <= r.value <= |s| && r.value <= 4 && !IsContinuation(s[|s| - r.value])
    ensures r.Some? ==> forall j | |s| - r.value < j <= |s| - i :: IsContinuation(s[j])
    ensures r.None? ==> forall j | 0 <= j && |s| - 4 <= j <= |s| - i :: IsContinuation(s[j])
    decreases 5 - i
  {
    if i > |s| || i > 4 then None
    else if !IsContinuation(s[|s| - i]) then Some(i)
    else LeadDistance(s, i + 1)
  }

  /** Number of bytes released, the rest being held back. */
  function ReleasedLength(s: string): (n: nat)
    ensures n <= |s| <= n + 4
  {
    match LeadDistance(s, 1)
    case None => |s|
    case Some(d) =>
      var needed := CharLength(s[|s| - d]);
      if needed == 0 || d == needed then |s| else |s| - d
  }

  method SplitIncompleteUtf8(str: string) returns (complete: string, tail: string)
    ensures complete + tail == str
    ensures |complete| == ReleasedLength(str)
    ensures |tail| <= 4
  {
    if str == "" {
      return "", "";
    }
    var len := |str|;
    var startPos := len;
    var i := 1;
    while i <= len && i <= 4
      invariant 1 <= i <= 5 && i <= len + 1 && startPos == len
      invariant LeadDistance(str, 1) == LeadDistance(str, i)
    {
      if !IsContinuation(str[len - i]) {
        startPos := len - i;
        break;
      }
      i := i + 1;
    }
    if startPos == len {
      return str, "";
    }
    var needed := CharLength(str[startPos]);
    if needed == 0 {
      return str, "";
    }
    var available := len - startPos;
    if available == needed {
      return str, "";
    }
    return str[..startPos], str[startPos..];
  }

  lemma {:induction false} CutInside(s: string, n: nat)
    requires s != "" && StartsWithChar(s, CharLength(s[0])) && 0 < n < CharLength(s[0])
    ensures PartialChar(s[0..n]) && Complete(s[..0])
  {
    var len := CharLength(s[0]);
    assert s[0..n][1..] == s[1..len][..n - 1];
  }

  /** Any prefix of a character sequence is whole characters and at most one
  character that is cut. */
  lemma {:induction false} CutPoint(total: string, n: nat) returns (k: nat)
    requires Complete(total) && n <= |total|
    ensures k <= n && Complete(total[..k])
    ensures k == n || PartialChar(total[k..n])
    decreases |total|
  {
    if total == "" || n == 0 {
      return 0;
    }
    var len := CharLength(total[0]);
    if n < len {
      CutInside(total, n);
      return 0;
    }
    var j := CutPoint(total[len..], n - len);
    k := len + j;
    FirstChar(total, len);
    hide Complete, PartialChar, CharLength;
    Regroup(total, len, j);
    CompleteAppend(total[..len], total[len..][..j]);
    SliceOfSlice(total, len, j, n - len);
  }

  lemma {:induction false} FirstChar(s: string, n: nat)
    requires StartsWithChar(s, n)
    ensures Complete(s[..n])
  {
    var c := s[..n];
    assert c[1..n] == s[1..n];
    assert c[n..] == "";
  }

  /** The last character of a non-empty character sequence. */
  lemma {:induction false} LastChar(s: string) returns (k: nat)
    requires Complete(s) && s != ""
    ensures k < |s| && Complete(s[..k]) && StartsWithChar(s[k..], |s| - k)
    decreases |s|
  {
    var n := CharLength(s[0]);
    if n == |s| {
      assert s[0..] == s;
      return 0;
    }
    var j := LastChar(s[n..]);
    k := n + j;
    FirstChar(s, n);
    Regroup(s, n, j);
    CompleteAppend(s[..n], s[n..][..j]);
  }

  /** On whole characters followed by a cut one, exactly the cut one is held. */
  lemma {:induction false} SplitsAtCharacter(whole: string, cut: string)
    requires Complete(whole) && (cut == "" || PartialChar(cut))
    ensures ReleasedLength(whole + cut) == |whole|
  {
    var s := whole + cut;
    if cut != "" {
      TailIsCut(whole, cut);
    } else if whole != "" {
      assert s == whole;
      var k := LastChar(whole);
      LastIsWhole(whole, k);
    } else {
      assert s == "";
    }
  }

  lemma {:induction false} TailIsCut(whole: string, cut: string)
    requires PartialChar(cut)
    ensures ReleasedLength(whole + cut) == |whole|
  {
    var s := whole + cut;
    assert s[|s| - |cut|] == cut[0];
    assert s[|s| - |cut| + 1..] == cut[1..];
    LeadAt(s, |cut|);
  }

  lemma {:induction false} LastIsWhole(s: string, k: nat)
    requires k < |s| && StartsWithChar(s[k..], |s| - k)
    ensures ReleasedLength(s) == |s|
  {
    assert s[k..][1..|s| - k] == s[k + 1..];
    assert s[k..][0] == s[k];
    LeadAt(s, |s| - k);
  }

  lemma {:induction false} LeadAt(s: string, d: nat)
    requires 1 <= d <= |s| && d <= 4
    requires !IsContinuation(s[|s| - d]) && Continuations(s[|s| - d + 1..])
    ensures LeadDistance(s, 1) == Some(d)
  {
    forall j | |s| - d < j < |s| ensures IsContinuation(s[j]) {
      assert s[|s| - d + 1..][j - (|s| - d + 1)] == s[j];
    }
  }

  // ---------------------------------------------------------------------
  // Streams cut anywhere.

  /** A chunk adds whole characters to what has arrived and leaves at most a cut one. */
  lemma {:induction false} Receive(total: string, merged: string, more: string) returns (n: nat)
    requires Complete(total) && Complete(total + (merged + more))
    ensures n == ReleasedLength(merged) <= |merged|
    ensures Complete(total + merged[..n])
    ensures merged[n..] == "" || PartialChar(merged[n..])
  {
    hide Complete, ReleasedLength, PartialChar;
    var rest := merged + more;
    CompleteAppend(total, rest);
    n := CutPoint(rest, |merged|);
    assert merged[..n] == rest[..n] && merged[n..] == rest[n..|merged|];
    SplitsAtCharacter(merged[..n], merged[n..]);
    assert merged == merged[..n] + merged[n..];
    assert merged[n..] == "" <==> n == |merged|;
    CompleteAppend(total, merged[..n]);
  }

  /** What has been released, and what is held back. */
  datatype Fed = Fed(released: string, held: string)

  function FeedAll(f: Fed, chunks: seq<string>): Fed
    decreases |chunks|
  {
    if chunks == [] then f
    else
      var merged := f.held + chunks[0];
      var n := ReleasedLength(merged);
      FeedAll(Fed(f.released + merged[..n], merged[n..]), chunks[1..])
  }

  /** No byte is lost, added or moved, whatever arrives. */
  lemma {:induction false} BytesConserved(f: Fed, chunks: seq<string>)
    ensures var r := FeedAll(f, chunks);
      r.released + r.held == f.released + f.held + Flatten(chunks) && (chunks != [] ==> |r.held| <= 4)
    decreases |chunks|
  {
    hide ReleasedLength;
    if chunks != [] {
      var merged, rest := f.held + chunks[0], Flatten(chunks[1..]);
      var n := ReleasedLength(merged);
      BytesConserved(Fed(f.released + merged[..n], merged[n..]), chunks[1..]);
      assert f.released + merged[..n] + merged[n..] + rest == f.released + f.held + (chunks[0] + rest);
    }
  }

  lemma {:induction false} Rejoined(a: string, b: string, n: nat, c: string, d: string)
    requires n <= |b|
    ensures a + (b + (c + d)) == a + b[..n] + (b[n..] + c + d)
  {
  }

  /** In a well-formed stream, released text always ends between characters, and less
  than one character, so at most three bytes, is held back. */
  lemma {:induction false} ReleasedAtCharacters(f: Fed, chunks: seq<string>, more: string)
    requires Complete(f.released) && (f.held == "" || PartialChar(f.held))
    requires Complete(f.released + (f.held + Flatten(chunks) + more))
    ensures var r := FeedAll(f, chunks);
      Complete(r.released) && (r.held == "" || PartialChar(r.held)) && |r.held| < 4
    decreases |chunks|
  {
    if chunks == [] {
      hide Complete;
    } else {
      hide Complete, ReleasedLength, PartialChar;
      var merged, rest := f.held + chunks[0], Flatten(chunks[1..]) + more;
      assert f.held + Flatten(chunks) + more == merged + rest;
      var n := Receive(f.released, merged, rest);
      Rejoined(f.released, merged, n, Flatten(chunks[1..]), more);
      ReleasedAtCharacters(Fed(f.released + merged[..n], merged[n..]), chunks[1..], more);
    }
  }
}
