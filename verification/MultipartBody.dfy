/** Random access to a request body that is stored as a chain of blocks
(`BodyView` in multipart_parser.cpp). */
module MultipartBody {
  import opened Text

  /** One block of the chain and the absolute offset of its first byte. */
  datatype Span = Span(data: string, offset: nat) {
    function End(): nat { offset + |data| }
  }

  /** Where the span after span `i` starts. */
  function NextStart(spans: seq<Span>, size: nat, i: nat): nat {
    if i + 1 < |spans| then spans[i + 1].offset else size
  }

  /** The spans are non-empty, follow each other without gaps from 0 to `size`,
  and make up `flat`. */
  ghost predicate Tiles(spans: seq<Span>, size: nat, flat: string) {
    && |flat| == size
    && (spans == [] ==> size == 0)
    && (spans != [] ==> spans[0].offset == 0)
    && (forall i | 0 <= i < |spans| :: SpanOk(spans, size, flat, i))
  }

  ghost predicate SpanOk(spans: seq<Span>, size: nat, flat: string, i: nat)
    requires i < |spans|
  {
    && spans[i].data != ""
    && spans[i].End() == NextStart(spans, size, i)
    && spans[i].End() <= size == |flat|
    && flat[spans[i].offset..spans[i].End()] == spans[i].data
  }

  lemma {:induction false} TilesAppend(spans: seq<Span>, size: nat, flat: string, data: string)
    requires Tiles(spans, size, flat) && data != ""
    ensures Tiles(spans + [Span(data, size)], size + |data|, flat + data)
  {
    var more, whole := spans + [Span(data, size)], flat + data;
    var n := |spans|;
    assert more[n] == Span(data, size) && (n > 0 ==> more[0] == spans[0]);
    forall i {:trigger more[i]} | 0 <= i < |more| ensures SpanOk(more, size + |data|, whole, i) {
      if i < n {
        assert SpanOk(spans, size, flat, i) && more[i] == spans[i];
        assert whole[more[i].offset..more[i].End()] == flat[more[i].offset..more[i].End()];
      }
    }
  }

  class BodyView {
    const spans: seq<Span>
    const size: nat
    var sliceIt: string  // the bytes the slice iterator has not passed
    var slicedUpto: nat
    ghost const flat: string  // the body as one string

    ghost predicate Layout() { Tiles(spans, size, flat) }

    ghost predicate Valid()
      reads this
    {
      Layout() && slicedUpto <= size && sliceIt == flat[slicedUpto..]
    }

    /** Empty blocks are left out. */
    constructor (body: seq<string>)
      ensures Valid() && flat == Flatten(body) && slicedUpto == 0
    {
      hide Tiles;
      var collected: seq<Span> := [];
      var offset: nat := 0;
      var joined := "";
      NoTiles();
      for k := 0 to |body|
        invariant Tiles(collected, offset, joined) && joined + Flatten(body[k..]) == Flatten(body)
      {
        assert body[k..][1..] == body[k + 1..];
        assert joined + (body[k] + Flatten(body[k + 1..])) == joined + body[k] + Flatten(body[k + 1..]);
        if body[k] != "" {
          TilesAppend(collected, offset, joined, body[k]);
          collected := collected + [Span(body[k], offset)];
          offset := offset + |body[k]|;
        } else {
          assert joined + body[k] == joined;
        }
        joined := joined + body[k];
      }
      assert joined + "" == joined && joined[0..] == joined;
      spans, size, flat := collected, offset, joined;
      sliceIt, slicedUpto := joined, 0;
      new;
      TilesSize(collected, offset, joined);
    }

    static lemma NoTiles()
      ensures Tiles([], 0, "")
    {
    }

    static lemma TilesSize(spans: seq<Span>, size: nat, flat: string)
      requires Tiles(spans, size, flat)
      ensures |flat| == size
    {
    }

    lemma {:induction false} FlatSize()
      requires Layout()
      ensures |flat| == size
    {
    }

    /** A window of span `k` is a window of the body, and the next span follows. */
    lemma {:induction false} InSpan(k: nat, i: nat, n: nat)
      requires Layout() && k < |spans| && i + n <= |spans[k].data|
      ensures var at := spans[k].offset + i;
        at + n <= size == |flat| && spans[k].data[i..i + n] == flat[at..at + n]
      ensures spans[k].offset + |spans[k].data| < size ==>
        k + 1 < |spans| && spans[k + 1].offset == spans[k].offset + |spans[k].data| && spans[k + 1].data != ""
    {
      assert SpanOk(spans, size, flat, k) && (k + 1 < |spans| ==> SpanOk(spans, size, flat, k + 1));
      Window(flat, spans[k].offset, spans[k].End(), i, i + n);
    }

    /** `std::upper_bound` on the offsets, minus one: the last span that starts at
    or before `pos`. */
    method SpanIndexFor(pos: nat) returns (idx: nat)
      requires Layout() && spans != [] && pos <= size
      ensures idx < |spans| && spans[idx].offset <= pos && size == |flat|
      ensures pos <= spans[idx].offset + |spans[idx].data|
      ensures pos < size ==> pos < spans[idx].offset + |spans[idx].data|
    {
      var low, high := 0, |spans|;
      while low < high
        invariant 0 <= low <= high <= |spans|
        invariant low == 0 || spans[low - 1].offset <= pos
        invariant high == |spans| || pos < spans[high].offset
      {
        var mid := (low + high) / 2;
        if pos < spans[mid].offset {
          high := mid;
        } else {
          low := mid + 1;
        }
      }
      idx := low - 1;
      assert SpanOk(spans, size, flat, idx);
    }

    method ByteAt(pos: nat) returns (c: char)
      requires Layout() && pos < size
      ensures c == flat[pos]
    {
      var idx := SpanIndexFor(pos);
      var span := spans[idx];
      assert SpanOk(spans, size, flat, idx);
      c := span.data[pos - span.offset];
    }

    /** What comparing one more window tells. */
    static lemma {:induction false} Compare(bytes: string, flat: string, pos: nat, done: nat, n: nat)
      requires done + n <= |bytes| && pos + |bytes| <= |flat| && bytes[..done] == flat[pos..pos + done]
      ensures var at := pos + done;
        if flat[at..at + n] == bytes[done..done + n] then bytes[..done + n] == flat[pos..pos + done + n]
        else flat[pos..pos + |bytes|] != bytes
    {
      var at := pos + done;
      Window(flat, pos, pos + |bytes|, done, done + n);
      Extend(bytes, 0, done, done + n);
      Extend(flat, pos, at, at + n);
    }

    method EqualsAt(pos: nat, bytes: string) returns (equal: bool)
      requires Layout() && (bytes == "" && pos <= size ==> spans != [])
      ensures equal == OccursAt(flat, bytes, pos)
    {
      if pos > size || |bytes| > size - pos {
        return false;
      }
      hide Layout;
      var idx := SpanIndexFor(pos);
      var inSpan := pos - spans[idx].offset;
      var compared := 0;
      while compared < |bytes|
        invariant 0 <= compared <= |bytes|
        invariant bytes[..compared] == flat[pos..pos + compared]
        invariant compared < |bytes| ==> idx < |spans| && spans[idx].offset + inSpan == pos + compared
        invariant compared < |bytes| ==> 0 <= inSpan < |spans[idx].data|
        decreases |bytes| - compared
      {
        var span := spans[idx];
        var n := if |bytes| - compared <= |span.data| - inSpan then |bytes| - compared else |span.data| - inSpan;
        InSpan(idx, inSpan, n);
        Compare(bytes, flat, pos, compared, n);
        if span.data[inSpan..inSpan + n] != bytes[compared..compared + n] {
          return false;
        }
        compared := compared + n;
        inSpan := 0;
        idx := idx + 1;
      }
      assert bytes[..compared] == bytes;
      return true;
    }

    /** Copies `[pos, pos + len)`. */
    method CopyTo(pos: nat, len: nat) returns (out: string)
      requires Layout() && spans != [] && pos + len <= size
      ensures out == flat[pos..pos + len]
    {
      out := "";
      hide Layout;
      var idx := SpanIndexFor(pos);
      var inSpan := pos - spans[idx].offset;
      while |out| < len
        invariant |out| <= len && out == flat[pos..pos + |out|]
        invariant |out| < len ==> idx < |spans| && spans[idx].offset + inSpan == pos + |out|
        invariant |out| < len ==> 0 <= inSpan < |spans[idx].data|
        decreases len - |out|
      {
        var span := spans[idx];
        var n := if len - |out| <= |span.data| - inSpan then len - |out| else |span.data| - inSpan;
        ghost var at := pos + |out|;
        InSpan(idx, inSpan, n);
        Extend(flat, pos, at, at + n);
        out := out + span.data[inSpan..inSpan + n];
        inSpan := 0;
        idx := idx + 1;
      }
    }

    /** The least match at or after `from`, also across block edges. */
    method FindFrom(pattern: string, from: nat) returns (r: Option<nat>)
      requires Layout()
      ensures pattern == "" ==> r == Some(from)
      ensures pattern != "" ==> r == Find(flat, pattern, from)
    {
      if pattern == "" {
        return Some(from);
      }
      ghost var next: nat := 0;  // no match between `from` and here
      for k := 0 to |spans|
        invariant next == (if k < |spans| then spans[k].offset else size)
        invariant forall p | from <= p < next :: !OccursAt(flat, pattern, p)
      {
        var span := spans[k];
        assert SpanOk(spans, size, flat, k);
        var spanEnd := span.End();
        if spanEnd > from {
          var inSpan := if from > span.offset then from - span.offset else 0;
          while inSpan < |span.data|
            invariant 0 <= inSpan <= |span.data|
            invariant forall p | from <= p < span.offset + inSpan :: !OccursAt(flat, pattern, p)
          {
            var hit := Find(span.data, pattern[..1], inSpan);
            NoHitNoMatch(k, pattern, inSpan, hit);
            if hit.None? {
              break;
            }
            var pos := span.offset + hit.value;
            if pos + |pattern| > size {
              FindIsNone(flat, pattern, from);
              return None;
            }
            var found := EqualsAt(pos, pattern);
            if found {
              FindIs(flat, pattern, from, pos);
              return Some(pos);
            }
            inSpan := pos + 1 - span.offset;
          }
        }
        next := spanEnd;
      }
      FindIsNone(flat, pattern, from);
      return None;
    }

    /** Where `memchr` sees no first byte, there is no match. */
    lemma {:induction false} NoHitNoMatch(k: nat, pattern: string, inSpan: nat, hit: Option<nat>)
      requires Layout() && k < |spans| && pattern != "" && inSpan <= |spans[k].data|
      requires hit == Find(spans[k].data, pattern[..1], inSpan)
      ensures hit.Some? ==> hit.value < |spans[k].data|
      ensures forall p | spans[k].offset + inSpan <= p < spans[k].offset + |spans[k].data| ::
        (hit.Some? ==> p < spans[k].offset + hit.value) ==> !OccursAt(flat, pattern, p)
    {
      var span := spans[k];
      assert SpanOk(spans, size, flat, k);
      forall p | span.offset + inSpan <= p < span.offset + |span.data|
              && (hit.Some? ==> p < span.offset + hit.value)
        ensures !OccursAt(flat, pattern, p)
      {
        var i := p - span.offset;
        assert !OccursAt(span.data, pattern[..1], i);
        assert span.data[i..i + 1] == [span.data[i]];
        assert flat[span.offset..span.End()][i] == flat[p];
        assert p + |pattern| <= size ==> flat[p..p + |pattern|][0] == flat[p];
      }
    }

    /** Appends `[pos, pos + len)` without going back; the requires are the checks
    of the source. */
    method Slice(pos: nat, len: nat) returns (out: string)
      requires Valid() && slicedUpto <= pos && pos + len <= size
      modifies this
      ensures Valid() && out == flat[pos..pos + len] && slicedUpto == pos + len
    {
      sliceIt := sliceIt[pos - slicedUpto..];
      assert sliceIt == flat[pos..];
      out := sliceIt[..len];
      sliceIt := sliceIt[len..];
      slicedUpto := pos + len;
    }
  }
}
