/** The colour image (sCImage): three integer planes C[0], C[1], C[2]
    (red, green, blue) that always share one size. This module holds the
    aggregate, its lifecycle, the range-rescaling clone of a single plane
    and the lightness projection. */
module ColorImage {
  import opened Planes

  /** The limits of a 32-bit int, which the range clone passes through as sentinels. */
  const INT_MIN: int := -0x8000_0000
  const INT_MAX: int := 0x7fff_ffff

  class CImage {
    // C[0], C[1], C[2]; nullable because Destroy releases them and clears the pointers
    var C0: Image32?
    var C1: Image32?
    var C2: Image32?

    /** Three allocated planes of identical size, each owning its own samples. */
    ghost predicate Valid()
      reads this, C0, C1, C2
    {
      && C0 != null && C1 != null && C2 != null
      && C0.Valid() && C1.Valid() && C2.Valid()
      && C1.ncols == C0.ncols && C2.ncols == C0.ncols
      && C1.nrows == C0.nrows && C2.nrows == C0.nrows
      && C0.data != C1.data && C0.data != C2.data && C1.data != C2.data
    }

    /** CImage::Create(ncols, nrows): all three planes are allocated together,
        with the requested size and every sample 0. */
    constructor Create(ncols: nat, nrows: nat)
      ensures Valid()
      ensures fresh(C0) && fresh(C1) && fresh(C2)
      ensures fresh(C0.data) && fresh(C1.data) && fresh(C2.data)
      ensures C0.ncols == ncols && C0.nrows == nrows
      ensures forall p :: 0 <= p < ncols * nrows ==> C0.data[p] == 0 && C1.data[p] == 0 && C2.data[p] == 0
    {
      C0 := new Image32.Create(ncols, nrows);
      C1 := new Image32.Create(ncols, nrows);
      C2 := new Image32.Create(ncols, nrows);
    }

    /** The aggregate that the clone operations allocate and then fill with
        three planes they built (imgc->C[i] = ...). */
    constructor Assemble(c0: Image32, c1: Image32, c2: Image32)
      requires c0.Valid() && c1.Valid() && c2.Valid()
      requires c1.ncols == c0.ncols && c2.ncols == c0.ncols
      requires c1.nrows == c0.nrows && c2.nrows == c0.nrows
      requires c0.data != c1.data && c0.data != c2.data && c1.data != c2.data
      ensures Valid()
      ensures C0 == c0 && C1 == c1 && C2 == c2
    {
      C0, C1, C2 := c0, c1, c2;
    }
  }

  /** The caller's variable that CImage::Destroy receives the address of. */
  class CImageHandle {
    var cimg: CImage?

    constructor Hold(cimg: CImage?)
      ensures this.cimg == cimg
    {
      this.cimg := cimg;
    }
  }

  /** CImage::Destroy: a null handle is left alone; otherwise the three plane
      pointers are released (cleared) and the caller's handle becomes null. */
  method Destroy(handle: CImageHandle)
    modifies handle, handle.cimg
    ensures handle.cimg == null
    ensures old(handle.cimg) != null ==>
      old(handle.cimg).C0 == null && old(handle.cimg).C1 == null && old(handle.cimg).C2 == null
    ensures old(handle.cimg) == null ==> unchanged(handle)
  {
    var tmp := handle.cimg;
    if tmp != null {
      tmp.C0 := null;
      tmp.C1 := null;
      tmp.C2 := null;
      handle.cimg := null;
    }
  }

  /** The 8-bit value CImage::Clone(img, Imin, Imax) gives a sample v. A
      degenerate range leaves the sample at its initial 0; INT_MIN and INT_MAX
      map to 0 and 255; any other sample is scaled by 255 / (Imax - Imin) and
      truncated toward zero (the source computes this in single-precision
      floating point; the model uses the exact quotient). */
  function RangeSample(v: int, Imin: int, Imax: int): int
  {
    if Imin == Imax then 0
    else if v == INT_MIN then 0
    else if v == INT_MAX then 255
    else TruncDiv(255 * (v - Imin), Imax - Imin)
  }

  /** A degenerate range leaves every sample at 0, whatever its value. */
  lemma RangeSampleDegenerate(v: int, I: int)
    ensures RangeSample(v, I, I) == 0
  {
  }

  /** The sentinels pass through whatever the (non-degenerate) range. */
  lemma RangeSampleSentinels(Imin: int, Imax: int)
    requires Imin != Imax
    ensures RangeSample(INT_MIN, Imin, Imax) == 0
    ensures RangeSample(INT_MAX, Imin, Imax) == 255
  {
  }

  /** Every sample inside an increasing range [Imin, Imax] lands in 0..255,
      with the range's ends mapped to 0 and 255 (when they are not sentinels). */
  lemma RangeSampleIn8Bits(v: int, Imin: int, Imax: int)
    requires Imin < Imax && Imin <= v <= Imax
    ensures 0 <= RangeSample(v, Imin, Imax) <= 255
    ensures v == Imin && v != INT_MAX ==> RangeSample(v, Imin, Imax) == 0
    ensures v == Imax && v != INT_MIN ==> RangeSample(v, Imin, Imax) == 255
  {
    var c := Imax - Imin;
    if v != INT_MIN && v != INT_MAX {
      MulMonotone(v - Imin, c, 255);
      TruncDivBetween(255 * (v - Imin), c, 0, 255);
      if v == Imax {
        TruncDivBetween(255 * (v - Imin), c, 255, 255);
      }
    }
  }

  /** CImage::Clone(img, Imin, Imax): a colour image whose three planes are
      identical copies of the rescaled plane. */
  method CloneRange(img: Image32, Imin: int, Imax: int) returns (cimg: CImage)
    requires img.Valid()
    ensures cimg.Valid()
    ensures fresh(cimg) && fresh(cimg.C0) && fresh(cimg.C1) && fresh(cimg.C2)
    ensures fresh(cimg.C0.data) && fresh(cimg.C1.data) && fresh(cimg.C2.data)
    ensures cimg.C0.ncols == img.ncols && cimg.C0.nrows == img.nrows
    ensures forall i :: 0 <= i < img.n ==> cimg.C0.data[i] == RangeSample(img.data[i], Imin, Imax)
    ensures cimg.C1.data[..] == cimg.C0.data[..] && cimg.C2.data[..] == cimg.C0.data[..]
  {
    var img8 := new Image32.Create(img.ncols, img.nrows);
    if Imin != Imax {
      for i := 0 to img.n
        modifies img8.data
        invariant forall k :: 0 <= k < i ==> img8.data[k] == RangeSample(img.data[k], Imin, Imax)
      {
        if img.data[i] != INT_MIN && img.data[i] != INT_MAX {
          img8.data[i] := TruncDiv(255 * (img.data[i] - Imin), Imax - Imin);
        } else {
          if img.data[i] == INT_MIN {
            img8.data[i] := 0;
          } else {
            img8.data[i] := 255;
          }
        }
      }
    }
    var c1 := ClonePlane(img8);
    var c2 := ClonePlane(img8);
    cimg := new CImage.Assemble(img8, c1, c2);
  }

  /** ROUND(s / 2.0) for an integer s: the half-way case rounds away from zero. */
  function RoundHalf(s: int): int
  {
    if s >= 0 then (s + 1) / 2 else -((-s + 1) / 2)
  }

  function Max3(a: int, b: int, c: int): int
  {
    if a >= b && a >= c then a else if b >= c then b else c
  }

  function Min3(a: int, b: int, c: int): int
  {
    if a <= b && a <= c then a else if b <= c then b else c
  }

  /** The lightness of one pixel: the rounded midpoint of its largest and smallest channel. */
  function LightnessOf(r: int, g: int, b: int): int
  {
    RoundHalf(Max3(r, g, b) + Min3(r, g, b))
  }

  /** The lightness lies between the pixel's smallest and largest channel, and a grey pixel keeps its value. */
  lemma LightnessBetween(r: int, g: int, b: int)
    ensures Min3(r, g, b) <= LightnessOf(r, g, b) <= Max3(r, g, b)
    ensures r == g == b ==> LightnessOf(r, g, b) == r
  {
  }

  /** CImage::Lightness: a single plane of the colour image's size holding each pixel's lightness. */
  method Lightness(cimg: CImage) returns (img: Image32)
    requires cimg.Valid()
    ensures fresh(img) && fresh(img.data) && img.Valid()
    ensures img.ncols == cimg.C0.ncols && img.nrows == cimg.C0.nrows
    ensures forall p :: 0 <= p < img.n ==>
      img.data[p] == LightnessOf(cimg.C0.data[p], cimg.C1.data[p], cimg.C2.data[p])
  {
    img := new Image32.Create(cimg.C0.ncols, cimg.C0.nrows);
    var n := cimg.C0.n;
    for p := 0 to n
      modifies img.data
      invariant forall k :: 0 <= k < p ==>
        img.data[k] == LightnessOf(cimg.C0.data[k], cimg.C1.data[k], cimg.C2.data[k])
    {
      var max := Max3(cimg.C0.data[p], cimg.C1.data[p], cimg.C2.data[p]);
      var min := Min3(cimg.C0.data[p], cimg.C1.data[p], cimg.C2.data[p]);
      img.data[p] := RoundHalf(max + min);
    }
  }
}
