/** The single-channel integer image (sImage32) that every colour plane is,
    reduced to what the colour-image code uses: its dimensions, its pixel
    count and its row-major sample array. Also the pixel-offset arithmetic
    `x + y * ncols` and the maximum sample value. */
module Planes {

  /** A pixel coordinate, as the library's Pixel record. */
  datatype Pixel = Pixel(x: int, y: int)

  class Image32 {
    var ncols: nat
    var nrows: nat
    var n: nat
    var data: array<int>

    ghost predicate Valid()
      reads this
    {
      n == ncols * nrows && data.Length == n
    }

    /** Image32::Create: a plane of the requested size whose samples are all 0. */
    constructor Create(ncols: nat, nrows: nat)
      ensures Valid() && fresh(data)
      ensures this.ncols == ncols && this.nrows == nrows
      ensures forall p :: 0 <= p < data.Length ==> data[p] == 0
    {
      this.ncols := ncols;
      this.nrows := nrows;
      n := ncols * nrows;
      data := new int[ncols * nrows](_ => 0);
    }
  }

  /** Image32::Clone: a fresh plane with the same dimensions and samples. */
  method ClonePlane(src: Image32) returns (dst: Image32)
    requires src.Valid()
    ensures fresh(dst) && fresh(dst.data) && dst.Valid()
    ensures dst.ncols == src.ncols && dst.nrows == src.nrows
    ensures dst.data[..] == src.data[..]
  {
    dst := new Image32.Create(src.ncols, src.nrows);
    var a := src.data;
    dst.data := new int[a.Length](p requires 0 <= p < a.Length reads a => a[p]);
  }

  /** The linear offset of pixel (x, y) in a row-major plane `ncols` wide. */
  function Offset(x: int, y: int, ncols: int): int
  {
    x + y * ncols
  }

  /** The sample of pixel (x, y) in a row-major plane of ncols x nrows samples. */
  function SampleAt(a: seq<int>, x: int, y: int, ncols: int, nrows: int): int
    requires |a| == ncols * nrows && 0 <= x < ncols && 0 <= y < nrows
  {
    OffsetInPlane(x, y, ncols, nrows);
    a[Offset(x, y, ncols)]
  }

  lemma MulMonotone(a: int, b: int, c: int)
    requires a <= b && 0 <= c
    ensures a * c <= b * c
  {
    assert b * c - a * c == (b - a) * c;
  }

  /** A pixel inside an ncols x nrows plane has an offset inside the sample array. */
  lemma OffsetInPlane(x: int, y: int, ncols: int, nrows: int)
    requires 0 <= x < ncols && 0 <= y < nrows
    ensures 0 <= Offset(x, y, ncols) < ncols * nrows
  {
    MulMonotone(0, y, ncols);
    MulMonotone(y, nrows - 1, ncols);
    assert (nrows - 1) * ncols == ncols * nrows - ncols;
  }

  /** The offset of an in-row pixel determines its coordinates: quotient and remainder by the width. */
  lemma OffsetDivMod(x: int, y: int, ncols: int)
    requires 0 <= x < ncols && 0 <= y
    ensures Offset(x, y, ncols) / ncols == y && Offset(x, y, ncols) % ncols == x
  {
    var o := Offset(x, y, ncols);
    var q, r := o / ncols, o % ncols;
    assert q * ncols + r == o;
    assert (q - y) * ncols == x - r;
    if q > y {
      MulMonotone(1, q - y, ncols);
    } else if q < y {
      MulMonotone(1, y - q, ncols);
    }
  }

  /** Image32::GetMaxVal: the largest sample of a non-empty plane, found by one scan. */
  method GetMaxVal(img: Image32) returns (m: int)
    requires img.Valid() && img.n > 0
    ensures forall p :: 0 <= p < img.n ==> img.data[p] <= m
    ensures exists p :: 0 <= p < img.n && img.data[p] == m
  {
    m := img.data[0];
    ghost var w := 0;
    for p := 1 to img.n
      invariant 0 <= w < img.n && img.data[w] == m
      invariant forall q :: 0 <= q < p ==> img.data[q] <= m
    {
      if img.data[p] > m {
        m := img.data[p];
        w := p;
      }
    }
  }

  /** Integer division as C and C++ perform it: the quotient is truncated toward zero. */
  function TruncDiv(a: int, b: int): int
    requires b != 0
  {
    var q := Abs(a) / Abs(b);
    if (a < 0) == (b < 0) then q else -q
  }

  function Abs(a: int): nat
  {
    if a < 0 then -a else a
  }

  lemma DivLowerBound(a: int, b: int, c: int)
    requires c > 0 && b * c <= a
    ensures b <= a / c
  {
    if a / c < b {
      assert (a / c + 1) * c == (a / c) * c + c;
      MulMonotone(a / c + 1, b, c);
    }
  }

  lemma DivUpperBound(a: int, b: int, c: int)
    requires c > 0 && a <= b * c
    ensures a / c <= b
  {
  }

  /** A truncated quotient by a positive divisor stays within the bounds that
      scale the dividend: lo * c <= s <= hi * c gives lo <= s / c <= hi. */
  lemma TruncDivBetween(s: int, c: int, lo: int, hi: int)
    requires c > 0 && lo * c <= s <= hi * c
    ensures lo <= TruncDiv(s, c) <= hi
  {
    if s >= 0 {
      DivUpperBound(s, hi, c);
      if lo <= 0 {
        DivLowerBound(s, 0, c);
      } else {
        DivLowerBound(s, lo, c);
      }
    } else {
      assert (-lo) * c == -(lo * c);
      DivUpperBound(-s, -lo, c);
      if hi >= 0 {
        DivLowerBound(-s, 0, c);
      } else {
        assert (-hi) * c == -(hi * c);
        DivLowerBound(-s, -hi, c);
      }
    }
  }
}
