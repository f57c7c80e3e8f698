/** Block-wise dequantisation, written three times: by reshaping, by repeating and
cropping the scales (`dequantize_fp8_block_weight`), and by a loop over tiles
(`block_dequant`). Numbers are exact. */
module Dequant {

  /** A tensor in row-major order. */
  datatype Tensor = Tensor(shape: seq<nat>, data: seq<real>) {
    predicate Matrix(rows: nat, cols: nat) { shape == [rows, cols] && |data| == rows * cols }

    /** An element of a matrix; 0 outside. */
    function At(r: nat, c: nat): real {
      if |shape| == 2 && |data| == shape[0] * shape[1] && r < shape[0] && c < shape[1] then
        Inside(r, c, shape[0], shape[1]);
        data[r * shape[1] + c]
      else 0.0
    }
  }

  function Size(shape: seq<nat>): nat { if shape == [] then 1 else shape[0] * Size(shape[1..]) }

  datatype Outcome = Success(tensor: Tensor) | ValueError | ZeroDivision

  function Tiles(n: nat, block: nat): nat
    requires block > 0
  {
    (n + block - 1) / block
  }

  // ---------------------------------------------------------------------
  // Index arithmetic.

  lemma {:induction false} MulStep(a: int, b: int, d: nat)
    requires a < b
    ensures a * d + d <= b * d
  {
    var m := b - a - 1;
    assert m * d >= 0;
    assert b * d == (a + 1 + m) * d == a * d + d + m * d;
  }

  lemma {:induction false} Inside(r: nat, c: nat, rows: nat, cols: nat)
    requires r < rows && c < cols
    ensures 0 <= r * cols + c < rows * cols
  {
    MulStep(r, rows, cols);
    assert r * cols >= 0;
  }

  /** The quotient is the number whose multiples enclose. */
  lemma {:induction false} DivIs(x: nat, d: nat, q: int)
    requires d > 0
    ensures q * d <= x < q * d + d <==> x / d == q
    ensures x / d == q ==> x % d == x - q * d
  {
    var p := x / d;
    Euclid(x, d);
    if q < p {
      MulStep(q, p, d);
    } else if p < q {
      MulStep(p, q, d);
    }
  }

  lemma {:induction false} Euclid(x: nat, d: nat)
    requires d > 0
    ensures x == x / d * d + x % d && 0 <= x % d < d
  {
  }

  lemma {:induction false} Unravel(r: nat, c: nat, cols: nat)
    requires c < cols
    ensures r * cols + c >= 0 && (r * cols + c) / cols == r && (r * cols + c) % cols == c
  {
    assert r * cols >= 0;
    DivIs(r * cols + c, cols, r);
  }

  lemma {:induction false} Assoc(a: int, b: int, c: int)
    ensures a * b * c == a * (c * b)
  {
  }

  lemma {:induction false} Le(a: int, b: int, d: nat)
    requires a <= b
    ensures a * d <= b * d
  {
    if a < b {
      MulStep(a, b, d);
    }
  }

  lemma {:induction false} TilesCover(n: nat, block: nat, i: nat)
    requires block > 0
    ensures i < n ==> i / block < Tiles(n, block)
    ensures i / block < Tiles(n, block) ==> i / block * block < n
  {
    var t, q := Tiles(n, block), i / block;
    DivIs(n + block - 1, block, t);
    DivIs(i, block, q);
    if q < t {
      MulStep(q, t, block);
    } else {
      Le(t, q, block);
    }
  }

  lemma {:induction false} ExactTiles(n: nat, block: nat)
    requires block > 0 && n % block == 0
    ensures Tiles(n, block) * block == n
  {
    DivIs(n, block, n / block);
    DivIs(n + block - 1, block, n / block);
  }

  lemma {:induction false} DivLess(i: nat, m: nat, d: nat)
    requires i < m * d
    ensures d > 0 && 0 <= i / d < m
  {
    if d == 0 {
      assert false;
    } else {
      DivIs(i, d, i / d);
      if i / d >= m {
        Le(m, i / d, d);
      }
    }
  }

  // ---------------------------------------------------------------------
  // Tensor operations.

  /** The matrix with the elements f(r, c). */
  function Tabulate(rows: nat, cols: nat, f: (nat, nat) -> real): (t: Tensor)
    ensures t.Matrix(rows, cols)
  {
    Tensor([rows, cols], seq(rows * cols, i requires 0 <= i < rows * cols =>
      (DivLess(i, rows, cols); f(i / cols, i % cols))))
  }

  function Rows(t: Tensor): nat { if |t.shape| == 2 then t.shape[0] else 0 }

  function Cols(t: Tensor): nat { if |t.shape| == 2 then t.shape[1] else 0 }

  /** `repeat_interleave` along each dimension. */
  function RepeatRows(t: Tensor, times: nat): Tensor
    requires times > 0
  {
    Tabulate(Rows(t) * times, Cols(t), (r: nat, c: nat) => t.At(r / times, c))
  }

  function RepeatCols(t: Tensor, times: nat): Tensor
    requires times > 0
  {
    Tabulate(Rows(t), Cols(t) * times, (r: nat, c: nat) => t.At(r, c / times))
  }

  function Crop(t: Tensor, rows: nat, cols: nat): Tensor {
    Tabulate(rows, cols, (r: nat, c: nat) => t.At(r, c))
  }

  /** Element by element. */
  function Times(a: Tensor, b: Tensor): Tensor
    requires |a.data| == |b.data|
  {
    Tensor(a.shape, seq(|a.data|, i requires 0 <= i < |a.data| => a.data[i] * b.data[i]))
  }

  /** The same data under another shape. */
  function Reshape(t: Tensor, shape: seq<nat>): Tensor
    requires |t.data| == Size(shape)
  {
    Tensor(shape, t.data)
  }

  /** Where a tensor of shape [a, 1, c, 1] is read for the i-th element of one of
  shape [a, b, c, d]. */
  function BroadcastIndex(i: nat, b: nat, c: nat, d: nat): int
    requires b > 0 && c > 0 && d > 0
  {
    i / d / c / b * c + i / d % c
  }

  lemma {:induction false} BroadcastFits(i: nat, a: nat, b: nat, c: nat, d: nat)
    requires i < a * (b * (c * d))
    ensures b > 0 && c > 0 && d > 0 && 0 <= BroadcastIndex(i, b, c, d) < a * c
  {
    assert a * (b * (c * d)) == a * b * c * d by { Regroup(a, b, c, d); }
    DivLess(i, a * b * c, d);
    DivLess(i / d, a * b, c);
    DivLess(i / d / c, a, b);
    Inside(i / d / c / b, i / d % c, a, c);
  }

  lemma {:induction false} Regroup(a: nat, b: nat, c: nat, d: nat)
    ensures a * (b * (c * d)) == a * b * c * d == (a * b) * (c * d)
  {
    assert b * (c * d) == b * c * d;
    assert a * (b * c * d) == a * (b * c) * d;
  }

  lemma {:induction false} Sizes(a: nat, b: nat, c: nat, d: nat)
    ensures Size([a, b, c, d]) == a * (b * (c * d)) == (a * b) * (c * d) && Size([a, 1, c, 1]) == a * c
    ensures Size([a, b]) == a * b
  {
    Regroup(a, b, c, d);
    assert [a, b, c, d][1..] == [b, c, d] && [b, c, d][1..] == [c, d] && [c, d][1..] == [d] && [d][1..] == [];
    assert [a, 1, c, 1][1..] == [1, c, 1] && [1, c, 1][1..] == [c, 1] && [c, 1][1..] == [1] && [1][1..] == [];
    assert Size([d]) == d && Size([c, d]) == c * d && Size([b, c, d]) == b * (c * d);
    assert Size([1]) == 1 && Size([c, 1]) == c && Size([1, c, 1]) == c;
    assert [a, b][1..] == [b] && [b][1..] == [] && Size([b]) == b;
  }

  function ScaleBlocks(w: Tensor, s: Tensor, a: nat, b: nat, c: nat, d: nat): Tensor
    requires |w.data| == a * (b * (c * d)) && |s.data| == a * c
  {
    Tensor(w.shape, seq(|w.data|, i requires 0 <= i < |w.data| =>
      (BroadcastFits(i, a, b, c, d); w.data[i] * s.data[BroadcastIndex(i, b, c, d)])))
  }

  // ---------------------------------------------------------------------
  // What dequantising means.

  /** The element is multiplied by the scale of its block. */
  ghost predicate ScaledAt(w: Tensor, s: Tensor, bn: nat, bk: nat, r: Tensor, i: nat, j: nat)
    requires bn > 0 && bk > 0
  {
    r.At(i, j) == w.At(i, j) * s.At(i / bn, j / bk)
  }

  /** Each element is multiplied once. */
  ghost predicate Dequantized(w: Tensor, s: Tensor, bn: nat, bk: nat, r: Tensor)
    requires bn > 0 && bk > 0
  {
    && |w.shape| == 2 && r.Matrix(w.shape[0], w.shape[1])
    && forall i, j | 0 <= i < w.shape[0] && 0 <= j < w.shape[1] :: ScaledAt(w, s, bn, bk, r, i, j)
  }

  /** It determines the result. */
  lemma {:induction false} DequantizedUnique(w: Tensor, s: Tensor, bn: nat, bk: nat, a: Tensor, b: Tensor)
    requires bn > 0 && bk > 0 && Dequantized(w, s, bn, bk, a) && Dequantized(w, s, bn, bk, b)
    ensures a == b
  {
    var n, k := w.shape[0], w.shape[1];
    forall i | 0 <= i < n * k ensures a.data[i] == b.data[i] {
      DivLess(i, n, k);
      Euclid(i, k);
      assert ScaledAt(w, s, bn, bk, a, i / k, i % k) && ScaledAt(w, s, bn, bk, b, i / k, i % k);
    }
  }

  // ---------------------------------------------------------------------
  // dequantize_fp8_block_weight.

  /** A matrix whose sides are multiples of the block's, and its scale. */
  predicate Even(w: Tensor, s: Tensor, bn: nat, bk: nat) {
    && bn > 0 && bk > 0 && |w.shape| == 2 && w.Matrix(w.shape[0], w.shape[1])
    && s.Matrix(Tiles(w.shape[0], bn), Tiles(w.shape[1], bk))
    && w.shape[0] % bn == 0 && w.shape[1] % bk == 0
  }

  function Aligned(w: Tensor, s: Tensor, bn: nat, bk: nat): Tensor
    requires Even(w, s, bn, bk)
  {
    var n, k, nTiles, kTiles := w.shape[0], w.shape[1], Tiles(w.shape[0], bn), Tiles(w.shape[1], bk);
    ExactTiles(n, bn);
    ExactTiles(k, bk);
    Sizes(nTiles, bn, kTiles, bk);
    Sizes(n, k, 0, 0);
    var w4 := Reshape(w, [nTiles, bn, kTiles, bk]);
    var s4 := Reshape(s, [nTiles, 1, kTiles, 1]);
    Reshape(ScaleBlocks(w4, s4, nTiles, bn, kTiles, bk), [n, k])
  }

  function Ragged(w: Tensor, s: Tensor, bn: nat, bk: nat): Tensor
    requires bn > 0 && bk > 0 && |w.shape| == 2 && w.Matrix(w.shape[0], w.shape[1])
  {
    Times(w, Crop(RepeatCols(RepeatRows(s, bn), bk), w.shape[0], w.shape[1]))
  }

  lemma {:induction false} TwoDimensions(t: Tensor)
    requires |t.shape| == 2 && |t.data| == Size(t.shape)
    ensures t.Matrix(t.shape[0], t.shape[1])
  {
    Sizes(t.shape[0], t.shape[1], 0, 0);
    assert t.shape == [t.shape[0], t.shape[1]];
  }

  function Dequantize(w: Tensor, s: Tensor, bn: nat, bk: nat): Outcome
    requires |w.data| == Size(w.shape) && |s.data| == Size(s.shape)
  {
    if |w.shape| != 2 || |s.shape| != 2 then ValueError
    else if bn == 0 || bk == 0 then ZeroDivision
    else
      var n, k := w.shape[0], w.shape[1];
      TwoDimensions(w);
      TwoDimensions(s);
      if s.shape != [Tiles(n, bn), Tiles(k, bk)] then ValueError
      else if n % bn == 0 && k % bk == 0 then Success(Aligned(w, s, bn, bk))
      else Success(Ragged(w, s, bn, bk))
  }

  lemma {:induction false} AlignedElement(i: nat, r: nat, c: nat, bn: nat, kTiles: nat, bk: nat)
    requires bn > 0 && bk > 0 && c < kTiles * bk && i == r * (kTiles * bk) + c
    ensures kTiles > 0 && BroadcastIndex(i, bn, kTiles, bk) == r / bn * kTiles + c / bk && c / bk < kTiles
  {
    DivLess(c, kTiles, bk);
    Euclid(c, bk);
    Assoc(r, kTiles, bk);
    assert r * (kTiles * bk) == r * kTiles * bk by { assert kTiles * bk == bk * kTiles; }
    assert (r * kTiles + c / bk) * bk == r * kTiles * bk + c / bk * bk;
    assert r * kTiles >= 0;
    DivIs(i, bk, r * kTiles + c / bk);
    Unravel(r, c / bk, kTiles);
  }

  /** The reshape path. */
  lemma {:induction false} AlignedMeaning(w: Tensor, s: Tensor, bn: nat, bk: nat)
    requires Even(w, s, bn, bk)
    ensures Dequantized(w, s, bn, bk, Aligned(w, s, bn, bk))
  {
    var n, k := w.shape[0], w.shape[1];
    AlignedShape(w, s, bn, bk);
    hide Aligned, Even, Tensor.At, Tensor.Matrix, ScaledAt;
    forall r, c | 0 <= r < n && 0 <= c < k
      ensures ScaledAt(w, s, bn, bk, Aligned(w, s, bn, bk), r, c)
    {
      AlignedAt(w, s, bn, bk, r, c);
    }
  }

  lemma {:induction false} AlignedShape(w: Tensor, s: Tensor, bn: nat, bk: nat)
    requires Even(w, s, bn, bk)
    ensures Aligned(w, s, bn, bk).Matrix(w.shape[0], w.shape[1])
  {
    hide Size, Tiles, BroadcastIndex;
  }

  lemma {:induction false} AlignedAt(w: Tensor, s: Tensor, bn: nat, bk: nat, r: nat, c: nat)
    requires Even(w, s, bn, bk) && r < w.shape[0] && c < w.shape[1]
    ensures ScaledAt(w, s, bn, bk, Aligned(w, s, bn, bk), r, c)
  {
    var n, k := w.shape[0], w.shape[1];
    ExactTiles(n, bn);
    ExactTiles(k, bk);
    Inside(r, c, n, k);
    AlignedElement(r * k + c, r, c, bn, Tiles(k, bk), bk);
    TilesCover(n, bn, r);
  }

  /** The repeat-and-crop path, for every shape and block size. */
  lemma {:induction false} RaggedMeaning(w: Tensor, s: Tensor, bn: nat, bk: nat)
    requires bn > 0 && bk > 0 && |w.shape| == 2 && w.Matrix(w.shape[0], w.shape[1])
    requires s.Matrix(Tiles(w.shape[0], bn), Tiles(w.shape[1], bk))
    ensures Dequantized(w, s, bn, bk, Ragged(w, s, bn, bk))
  {
    var n, k := w.shape[0], w.shape[1];
    TimesShape(w, s, bn, bk, n, k);
    hide Ragged, Tiles, Tensor.At, ScaledAt;
    forall r, c | 0 <= r < n && 0 <= c < k ensures ScaledAt(w, s, bn, bk, Ragged(w, s, bn, bk), r, c) {
      RaggedElement(w, s, bn, bk, n, k, r, c);
    }
  }

  lemma {:induction false} TimesShape(w: Tensor, s: Tensor, bn: nat, bk: nat, n: nat, k: nat)
    requires bn > 0 && bk > 0 && w.Matrix(n, k)
    ensures Ragged(w, s, bn, bk).Matrix(n, k)
  {
    hide RepeatRows, RepeatCols;
  }

  lemma {:induction false} RaggedElement(w: Tensor, s: Tensor, bn: nat, bk: nat, n: nat, k: nat, r: nat, c: nat)
    requires bn > 0 && bk > 0 && w.Matrix(n, k) && s.Matrix(Tiles(n, bn), Tiles(k, bk)) && r < n && c < k
    ensures ScaledAt(w, s, bn, bk, Ragged(w, s, bn, bk), r, c)
  {
    hide RepeatRows, RepeatCols, Tiles, Times, Crop;
    var full := RepeatCols(RepeatRows(s, bn), bk);
    CropAt(full, n, k, r, c);
    TimesAt(w, Crop(full, n, k), n, k, r, c);
    RepeatedScale(s, bn, bk, n, k, r, c);
  }

  lemma {:induction false} TimesAt(a: Tensor, b: Tensor, rows: nat, cols: nat, r: nat, c: nat)
    requires a.Matrix(rows, cols) && b.Matrix(rows, cols) && r < rows && c < cols
    ensures Times(a, b).At(r, c) == a.At(r, c) * b.At(r, c)
  {
    Inside(r, c, rows, cols);
  }

  lemma {:induction false} CropAt(t: Tensor, rows: nat, cols: nat, r: nat, c: nat)
    requires r < rows && c < cols
    ensures Crop(t, rows, cols).Matrix(rows, cols) && Crop(t, rows, cols).At(r, c) == t.At(r, c)
  {
    Inside(r, c, rows, cols);
    Unravel(r, c, cols);
  }

  lemma {:induction false} RepeatedScale(s: Tensor, bn: nat, bk: nat, n: nat, k: nat, r: nat, c: nat)
    requires bn > 0 && bk > 0 && s.Matrix(Tiles(n, bn), Tiles(k, bk)) && r < n && c < k
    ensures RepeatCols(RepeatRows(s, bn), bk).At(r, c) == s.At(r / bn, c / bk)
  {
    var nTiles, kTiles := Tiles(n, bn), Tiles(k, bk);
    var rows := RepeatRows(s, bn);
    TilesCover(n, bn, r);
    TilesCover(k, bk, c);
    CoveredByTiles(n, bn, r);
    CoveredByTiles(k, bk, c);
    RowsAt(s, bn, r, c / bk);
    hide RepeatRows;
    ColsAt(rows, bk, r, c);
  }

  lemma {:induction false} RowsAt(t: Tensor, times: nat, r: nat, c: nat)
    requires times > 0 && r < Rows(t) * times && c < Cols(t)
    ensures RepeatRows(t, times).At(r, c) == t.At(r / times, c)
    ensures RepeatRows(t, times).shape == [Rows(t) * times, Cols(t)]
  {
    Inside(r, c, Rows(t) * times, Cols(t));
    Unravel(r, c, Cols(t));
  }

  lemma {:induction false} ColsAt(t: Tensor, times: nat, r: nat, c: nat)
    requires times > 0 && r < Rows(t) && c < Cols(t) * times
    ensures RepeatCols(t, times).At(r, c) == t.At(r, c / times)
  {
    Inside(r, c, Rows(t), Cols(t) * times);
    Unravel(r, c, Cols(t) * times);
  }

  lemma {:induction false} CoveredByTiles(n: nat, block: nat, i: nat)
    requires block > 0 && i < n
    ensures i < Tiles(n, block) * block
  {
    DivIs(n + block - 1, block, Tiles(n, block));
  }

  /** Main result. Dequantisation succeeds exactly on matrices whose scale has one
  element a block, ragged last blocks included, and then multiplies each element once,
  by the scale of its block; where the reshape path applies, the other one would give
  the same. */
  lemma {:induction false} DequantizeMeaning(w: Tensor, s: Tensor, bn: nat, bk: nat)
    requires |w.data| == Size(w.shape) && |s.data| == Size(s.shape)
    ensures var out := Dequantize(w, s, bn, bk);
      && (out.Success? <==> |w.shape| == 2 && |s.shape| == 2 && bn > 0 && bk > 0
                            && s.shape == [Tiles(w.shape[0], bn), Tiles(w.shape[1], bk)])
      && (out.Success? ==> Dequantized(w, s, bn, bk, out.tensor) && out.tensor == Ragged(w, s, bn, bk))
  {
    hide Aligned, Ragged, Dequantized, Size, Tiles;
    if |w.shape| == 2 && |s.shape| == 2 && Dequantize(w, s, bn, bk).Success? {
      TwoDimensions(w);
      TwoDimensions(s);
      RaggedMeaning(w, s, bn, bk);
      if w.shape[0] % bn == 0 && w.shape[1] % bk == 0 {
        AlignedMeaning(w, s, bn, bk);
        DequantizedUnique(w, s, bn, bk, Aligned(w, s, bn, bk), Ragged(w, s, bn, bk));
      }
    }
  }

  // ---------------------------------------------------------------------
  // block_dequant.

  /** An array as a tensor. */
  ghost function AsTensor(a: array2<real>): (t: Tensor)
    reads a
    ensures t.Matrix(a.Length0, a.Length1)
  {
    Tensor([a.Length0, a.Length1], seq(a.Length0 * a.Length1, i requires 0 <= i < a.Length0 * a.Length1 reads a =>
      (DivLess(i, a.Length0, a.Length1); a[i / a.Length1, i % a.Length1])))
  }

  lemma {:induction false} AsTensorAt(a: array2<real>, r: nat, c: nat)
    requires r < a.Length0 && c < a.Length1
    ensures AsTensor(a).At(r, c) == a[r, c]
  {
    Inside(r, c, a.Length0, a.Length1);
    Unravel(r, c, a.Length1);
  }

  /** Where a tile starts. */
  function Start(t: nat, block: nat): nat {
    assert t * block >= 0;
    t * block
  }

  predicate InTile(r: nat, c: nat, bn: nat, bk: nat, j: nat, i: nat)
    requires bn > 0 && bk > 0
  {
    r / bn == j && c / bk == i
  }

  lemma {:induction false} InTileBounds(r: nat, c: nat, bn: nat, bk: nat, j: nat, i: nat)
    requires bn > 0 && bk > 0
    ensures InTile(r, c, bn, bk, j, i) <==> Start(j, bn) <= r < Start(j + 1, bn) && Start(i, bk) <= c < Start(i + 1, bk)
  {
    DivIs(r, bn, j);
    DivIs(c, bk, i);
    assert (j + 1) * bn == j * bn + bn && (i + 1) * bk == i * bk + bk;
  }

  /** The tile in row j and column i of tiles, multiplied in place. */
  method ScaleTile(a: array2<real>, bn: nat, bk: nat, j: nat, i: nat, scale: real)
    requires bn > 0 && bk > 0
    modifies a
    ensures forall r, c | 0 <= r < a.Length0 && 0 <= c < a.Length1 ::
      a[r, c] == if InTile(r, c, bn, bk, j, i) then old(a[r, c]) * scale else old(a[r, c])
  {
    hide Start, InTile;
    var r0, r1 := Start(j, bn), Min(Start(j + 1, bn), a.Length0);
    var c0, c1 := Start(i, bk), Min(Start(i + 1, bk), a.Length1);
    forall r, c | 0 <= r < a.Length0 && 0 <= c < a.Length1
      ensures InTile(r, c, bn, bk, j, i) <==> r0 <= r < r1 && c0 <= c < c1
    {
      InTileBounds(r, c, bn, bk, j, i);
    }
    forall r, c | r0 <= r < r1 && c0 <= c < c1 {
      a[r, c] := a[r, c] * scale;
    }
  }

  function Min(a: nat, b: nat): nat { if a < b then a else b }

  /** Which elements the loop has passed before tile (j, i), columns of tiles first. */
  predicate Passed(r: nat, c: nat, bn: nat, bk: nat, j: nat, i: nat)
    requires bn > 0 && bk > 0
  {
    c / bk < i || (c / bk == i && r / bn < j)
  }

  /** What the loop has made of an element before tile (j, i). */
  ghost function SoFar(x: array2<real>, s: array2<real>, bn: nat, bk: nat, j: nat, i: nat, r: nat, c: nat): real
    requires bn > 0 && bk > 0 && s.Length0 == Tiles(x.Length0, bn) && s.Length1 == Tiles(x.Length1, bk)
    requires r < x.Length0 && c < x.Length1
    reads x, s
  {
    TilesCover(x.Length0, bn, r);
    TilesCover(x.Length1, bk, c);
    if Passed(r, c, bn, bk, j, i) then x[r, c] * s[r / bn, c / bk] else x[r, c]
  }

  lemma {:induction false} NextTile(x: array2<real>, s: array2<real>, bn: nat, bk: nat, j: nat, i: nat, r: nat, c: nat)
    requires bn > 0 && bk > 0 && s.Length0 == Tiles(x.Length0, bn) && s.Length1 == Tiles(x.Length1, bk)
    requires r < x.Length0 && c < x.Length1 && j < s.Length0 && i < s.Length1
    ensures var before := SoFar(x, s, bn, bk, j, i, r, c);
      SoFar(x, s, bn, bk, j + 1, i, r, c) == if InTile(r, c, bn, bk, j, i) then before * s[j, i] else before
  {
  }

  lemma {:induction false} NextColumn(x: array2<real>, s: array2<real>, bn: nat, bk: nat, i: nat, r: nat, c: nat)
    requires bn > 0 && bk > 0 && s.Length0 == Tiles(x.Length0, bn) && s.Length1 == Tiles(x.Length1, bk)
    requires r < x.Length0 && c < x.Length1
    ensures SoFar(x, s, bn, bk, 0, i + 1, r, c) == SoFar(x, s, bn, bk, s.Length0, i, r, c)
    ensures SoFar(x, s, bn, bk, 0, 0, r, c) == x[r, c]
  {
    hide Tiles;
    TilesCover(x.Length0, bn, r);
  }

  lemma {:induction false} AllTiles(x: array2<real>, s: array2<real>, bn: nat, bk: nat, a: array2<real>, r: nat, c: nat)
    requires bn > 0 && bk > 0 && s.Length0 == Tiles(x.Length0, bn) && s.Length1 == Tiles(x.Length1, bk)
    requires r < x.Length0 && c < x.Length1 && a.Length0 == x.Length0 && a.Length1 == x.Length1
    requires a[r, c] == SoFar(x, s, bn, bk, 0, s.Length1, r, c)
    ensures ScaledAt(AsTensor(x), AsTensor(s), bn, bk, AsTensor(a), r, c)
  {
    hide Tiles, AsTensor;
    TilesCover(x.Length0, bn, r);
    TilesCover(x.Length1, bk, c);
    AsTensorAt(a, r, c);
    AsTensorAt(x, r, c);
    AsTensorAt(s, r / bn, c / bk);
  }

  /** The third way: it fails unless the scale has one element a block, and then its
  result means the same. */
  method BlockDequant(x: array2<real>, s: array2<real>, bn: nat, bk: nat) returns (ok: bool, a: array2<real>)
    requires bn > 0 && bk > 0
    ensures ok <==> s.Length0 == Tiles(x.Length0, bn) && s.Length1 == Tiles(x.Length1, bk)
    ensures fresh(a)
    ensures ok ==> Dequantized(AsTensor(x), AsTensor(s), bn, bk, AsTensor(a))
  {
    hide Tiles, AsTensor, SoFar, InTile, ScaledAt;
    var n, k := x.Length0, x.Length1;
    var nTiles, kTiles := Tiles(n, bn), Tiles(k, bk);
    a := new real[n, k]((r, c) requires 0 <= r < n && 0 <= c < k reads x => x[r, c]);
    if nTiles != s.Length0 || kTiles != s.Length1 {
      return false, a;
    }
    forall r, c | 0 <= r < n && 0 <= c < k ensures a[r, c] == SoFar(x, s, bn, bk, 0, 0, r, c) {
      NextColumn(x, s, bn, bk, 0, r, c);
    }
    for i := 0 to kTiles
      invariant forall r, c | 0 <= r < n && 0 <= c < k :: a[r, c] == SoFar(x, s, bn, bk, 0, i, r, c)
    {
      for j := 0 to nTiles
        invariant forall r, c | 0 <= r < n && 0 <= c < k :: a[r, c] == SoFar(x, s, bn, bk, j, i, r, c)
      {
        ScaleTile(a, bn, bk, j, i, s[j, i]);
        forall r, c | 0 <= r < n && 0 <= c < k ensures a[r, c] == SoFar(x, s, bn, bk, j + 1, i, r, c) {
          NextTile(x, s, bn, bk, j, i, r, c);
        }
      }
      forall r, c | 0 <= r < n && 0 <= c < k ensures a[r, c] == SoFar(x, s, bn, bk, 0, i + 1, r, c) {
        NextColumn(x, s, bn, bk, i, r, c);
      }
    }
    forall r, c | 0 <= r < n && 0 <= c < k
      ensures ScaledAt(AsTensor(x), AsTensor(s), bn, bk, AsTensor(a), r, c)
    {
      AllTiles(x, s, bn, bk, a, r, c);
    }
    return true, a;
  }

  /** So the three agree on every matrix and block size. */
  lemma {:induction false} AllAgree(w: Tensor, s: Tensor, bn: nat, bk: nat, looped: Tensor)
    requires |w.data| == Size(w.shape) && |s.data| == Size(s.shape) && Dequantize(w, s, bn, bk).Success?
    requires bn > 0 && bk > 0 && Dequantized(w, s, bn, bk, looped)
    ensures Dequantize(w, s, bn, bk).tensor == looped == Ragged(w, s, bn, bk)
  {
    hide Dequantize, Dequantized, Ragged;
    DequantizeMeaning(w, s, bn, bk);
    DequantizedUnique(w, s, bn, bk, Dequantize(w, s, bn, bk).tensor, looped);
  }
}
