/** Colorization of a label image: every pixel gets a colour chosen by its
    label, either from a table of random colours or as the mean colour of the
    label's pixels in a reference image. The random source is a parameter:
    `draws` holds, in call order, the values the generator would return. */
module Colorize {
  import opened Planes
  import opened ColorImage
  import Color

  /** A label image: a valid, non-empty plane of non-negative labels. */
  ghost predicate IsLabelImage(labels: Image32)
    reads labels, labels.data
  {
    labels.Valid() && labels.n > 0 && forall p :: 0 <= p < labels.n ==> labels.data[p] >= 0
  }

  // ---------------------------------------------------------------------------
  // RandomColorize

  /** colormap[l] of RandomColorize: label 0 is black (0x000000), label l >= 1
      takes the l-th value drawn from Color::RandomColor. */
  function LabelColor(draws: seq<int>, l: nat): int
    requires l <= |draws|
  {
    if l == 0 then 0x000000 else draws[l - 1]
  }

  /** Whatever the draws, label 0 is painted black in all three channels. */
  lemma RandomColorizeBackgroundBlack(draws: seq<int>)
    ensures Color.Channel0(LabelColor(draws, 0)) == 0
    ensures Color.Channel1(LabelColor(draws, 0)) == 0
    ensures Color.Channel2(LabelColor(draws, 0)) == 0
  {
  }

  /** CImage::RandomColorize: each pixel is painted with the channels of its label's colormap entry. */
  method RandomColorize(img: Image32, draws: seq<int>) returns (cimg: CImage)
    requires IsLabelImage(img)
    requires forall p :: 0 <= p < img.n ==> img.data[p] <= |draws|
    ensures cimg.Valid()
    ensures fresh(cimg) && fresh(cimg.C0.data) && fresh(cimg.C1.data) && fresh(cimg.C2.data)
    ensures cimg.C0.ncols == img.ncols && cimg.C0.nrows == img.nrows
    ensures forall p :: 0 <= p < img.n ==>
      && cimg.C0.data[p] == Color.Channel0(LabelColor(draws, img.data[p]))
      && cimg.C1.data[p] == Color.Channel1(LabelColor(draws, img.data[p]))
      && cimg.C2.data[p] == Color.Channel2(LabelColor(draws, img.data[p]))
  {
    cimg := new CImage.Create(img.ncols, img.nrows);
    var Imax := GetMaxVal(img);
    var colormap := new int[Imax + 1];
    colormap[0] := 0x000000;
    for i := 1 to Imax + 1
      modifies colormap
      invariant forall l :: 0 <= l < i ==> colormap[l] == LabelColor(draws, l)
    {
      colormap[i] := draws[i - 1];
    }
    assert forall l :: 0 <= l <= Imax ==> colormap[l] == LabelColor(draws, l);
    PaintByColormap(cimg, img, colormap[..]);
  }

  /** The painting pass of RandomColorize: every pixel takes the three
      channels of its label's colormap entry. */
  method PaintByColormap(cimg: CImage, img: Image32, colormap: seq<int>)
    requires cimg.Valid() && IsLabelImage(img)
    requires cimg.C0.n == img.n
    requires img.data != cimg.C0.data && img.data != cimg.C1.data && img.data != cimg.C2.data
    requires forall p :: 0 <= p < img.n ==> img.data[p] < |colormap|
    modifies cimg.C0.data, cimg.C1.data, cimg.C2.data
    ensures forall p :: 0 <= p < img.n ==>
      && cimg.C0.data[p] == Color.Channel0(colormap[img.data[p]])
      && cimg.C1.data[p] == Color.Channel1(colormap[img.data[p]])
      && cimg.C2.data[p] == Color.Channel2(colormap[img.data[p]])
  {
    var c0, c1, c2 := cimg.C0.data, cimg.C1.data, cimg.C2.data;
    for p := 0 to img.n
      modifies c0, c1, c2
      invariant forall q :: 0 <= q < p ==>
        && c0[q] == Color.Channel0(colormap[img.data[q]])
        && c1[q] == Color.Channel1(colormap[img.data[q]])
        && c2[q] == Color.Channel2(colormap[img.data[q]])
    {
      var color := colormap[img.data[p]];
      c0[p] := Color.Channel0(color);
      c1[p] := Color.Channel1(color);
      c2[p] := Color.Channel2(color);
    }
  }

  /** The final pass shared by ColorizeLabel and ColorizeByAverageColor: each
      pixel of the colour image takes the entries of its label in the three
      per-label tables. */
  method PaintByLabel(cimg: CImage, labels: Image32, R: seq<int>, G: seq<int>, B: seq<int>)
    requires cimg.Valid() && IsLabelImage(labels)
    requires cimg.C0.n == labels.n
    requires labels.data != cimg.C0.data && labels.data != cimg.C1.data && labels.data != cimg.C2.data
    requires forall p :: 0 <= p < labels.n ==> labels.data[p] < |R| && labels.data[p] < |G| && labels.data[p] < |B|
    modifies cimg.C0.data, cimg.C1.data, cimg.C2.data
    ensures forall p :: 0 <= p < labels.n ==>
      && cimg.C0.data[p] == R[labels.data[p]]
      && cimg.C1.data[p] == G[labels.data[p]]
      && cimg.C2.data[p] == B[labels.data[p]]
  {
    var c0, c1, c2 := cimg.C0.data, cimg.C1.data, cimg.C2.data;
    for p := 0 to labels.n
      modifies c0, c1, c2
      invariant forall q :: 0 <= q < p ==> c0[q] == R[labels.data[q]] && c1[q] == G[labels.data[q]] && c2[q] == B[labels.data[q]]
    {
      var l := labels.data[p];
      c0[p] := R[l];
      c1[p] := G[l];
      c2[p] := B[l];
    }
  }

  // ---------------------------------------------------------------------------
  // ColorizeLabel

  /** The table loop of ColorizeLabel: for l = 0..Lmax in turn, R[l], G[l]
      and B[l] take the next three draws of RandomInteger(0, 255). */
  method DrawTables(draws: seq<int>, Lmax: nat) returns (R: seq<int>, G: seq<int>, B: seq<int>)
    requires 3 * Lmax + 2 < |draws|
    ensures |R| == |G| == |B| == Lmax + 1
    ensures forall l :: 0 <= l <= Lmax ==> R[l] == draws[3 * l] && G[l] == draws[3 * l + 1] && B[l] == draws[3 * l + 2]
  {
    var r := new int[Lmax + 1];
    var g := new int[Lmax + 1];
    var b := new int[Lmax + 1];
    for l := 0 to Lmax + 1
      modifies r, g, b
      invariant forall k :: 0 <= k < l ==> r[k] == draws[3 * k] && g[k] == draws[3 * k + 1] && b[k] == draws[3 * k + 2]
    {
      r[l] := draws[3 * l];
      g[l] := draws[3 * l + 1];
      b[l] := draws[3 * l + 2];
    }
    R, G, B := r[..], g[..], b[..];
  }

  /** CImage::ColorizeLabel: the tables R, G, B are filled from the generator
      label by label (R[l], G[l], B[l] are draws 3l, 3l+1, 3l+2), then each
      pixel takes its label's entries. */
  method ColorizeLabel(labels: Image32, draws: seq<int>) returns (cimg: CImage)
    requires IsLabelImage(labels)
    requires forall p :: 0 <= p < labels.n ==> 3 * labels.data[p] + 2 < |draws|
    ensures cimg.Valid()
    ensures fresh(cimg) && fresh(cimg.C0.data) && fresh(cimg.C1.data) && fresh(cimg.C2.data)
    ensures cimg.C0.ncols == labels.ncols && cimg.C0.nrows == labels.nrows
    ensures forall p :: 0 <= p < labels.n ==>
      && cimg.C0.data[p] == draws[3 * labels.data[p]]
      && cimg.C1.data[p] == draws[3 * labels.data[p] + 1]
      && cimg.C2.data[p] == draws[3 * labels.data[p] + 2]
  {
    cimg := new CImage.Create(labels.ncols, labels.nrows);
    var Lmax := GetMaxVal(labels);
    var R, G, B := DrawTables(draws, Lmax);
    PaintByLabel(cimg, labels, R, G, B);
  }

  // ---------------------------------------------------------------------------
  // ColorizeByAverageColor

  /** The sum of channel `ch` over the pixels whose label is l. */
  function LabelSum(ch: seq<int>, lbl: seq<int>, l: int): int
    requires |ch| == |lbl|
  {
    if |lbl| == 0 then 0
    else
      var k := |lbl| - 1;
      LabelSum(ch[..k], lbl[..k], l) + (if lbl[k] == l then ch[k] else 0)
  }

  /** The number of pixels whose label is l. */
  function LabelCount(lbl: seq<int>, l: int): nat
  {
    if |lbl| == 0 then 0
    else
      var k := |lbl| - 1;
      LabelCount(lbl[..k], l) + (if lbl[k] == l then 1 else 0)
  }

  /** The average ColorizeByAverageColor gives label l in channel `ch`: the
      truncated quotient of the label's sum by its count for a label l >= 1
      that occurs; 0 for label 0 and for labels that do not occur. */
  function LabelMean(ch: seq<int>, lbl: seq<int>, l: int): int
    requires |ch| == |lbl|
  {
    if l >= 1 && LabelCount(lbl, l) > 0 then TruncDiv(LabelSum(ch, lbl, l), LabelCount(lbl, l)) else 0
  }

  /** Extending the scanned prefix by one pixel adds that pixel to its own label only. */
  lemma LabelSumStep(ch: seq<int>, lbl: seq<int>, p: nat, l: int)
    requires |ch| == |lbl| && p < |lbl|
    ensures LabelSum(ch[..p + 1], lbl[..p + 1], l) == LabelSum(ch[..p], lbl[..p], l) + (if lbl[p] == l then ch[p] else 0)
    ensures LabelCount(lbl[..p + 1], l) == LabelCount(lbl[..p], l) + (if lbl[p] == l then 1 else 0)
  {
    assert ch[..p + 1][..p] == ch[..p];
    assert lbl[..p + 1][..p] == lbl[..p];
  }

  /** Every label that some pixel carries has a positive count, so its average is a real quotient. */
  lemma {:induction false} LabelCountPositive(lbl: seq<int>, p: nat)
    requires p < |lbl|
    ensures LabelCount(lbl, lbl[p]) > 0
  {
    var k := |lbl| - 1;
    if p < k {
      LabelCountPositive(lbl[..k], p);
    }
  }

  /** When every pixel of label l has its channel value in [lo, hi], the label's
      sum lies between lo and hi times its count. */
  lemma {:induction false} LabelSumBounds(ch: seq<int>, lbl: seq<int>, l: int, lo: int, hi: int)
    requires |ch| == |lbl|
    requires forall k :: 0 <= k < |lbl| && lbl[k] == l ==> lo <= ch[k] <= hi
    ensures lo * LabelCount(lbl, l) <= LabelSum(ch, lbl, l) <= hi * LabelCount(lbl, l)
  {
    if |lbl| > 0 {
      var k := |lbl| - 1;
      assert forall j :: 0 <= j < k ==> ch[..k][j] == ch[j] && lbl[..k][j] == lbl[j];
      LabelSumBounds(ch[..k], lbl[..k], l, lo, hi);
      var c := LabelCount(lbl[..k], l);
      if lbl[k] == l {
        assert lo * (c + 1) == lo * c + lo;
        assert hi * (c + 1) == hi * c + hi;
      }
    }
  }

  /** The average of a label that occurs lies within the range of its pixels'
      values; in particular a region of one uniform value keeps that value. */
  lemma LabelMeanWithin(ch: seq<int>, lbl: seq<int>, l: int, lo: int, hi: int)
    requires |ch| == |lbl| && l >= 1 && LabelCount(lbl, l) > 0
    requires forall k :: 0 <= k < |lbl| && lbl[k] == l ==> lo <= ch[k] <= hi
    ensures lo <= LabelMean(ch, lbl, l) <= hi
  {
    LabelSumBounds(ch, lbl, l, lo, hi);
    TruncDivBetween(LabelSum(ch, lbl, l), LabelCount(lbl, l), lo, hi);
  }

  /** A reference channel of 8-bit samples gives 8-bit averages for every label. */
  lemma LabelMeanIn8Bits(ch: seq<int>, lbl: seq<int>, l: int)
    requires |ch| == |lbl|
    requires forall k :: 0 <= k < |ch| ==> 0 <= ch[k] <= 255
    ensures 0 <= LabelMean(ch, lbl, l) <= 255
  {
    if l >= 1 && LabelCount(lbl, l) > 0 {
      LabelMeanWithin(ch, lbl, l, 0, 255);
    }
  }

  /** The first pass of ColorizeByAverageColor: per-label sums of the three
      channels of the reference image and per-label pixel counts. */
  method AccumulateByLabel(orig: CImage, labels: Image32, Imax: nat)
    returns (sumR: array<int>, sumG: array<int>, sumB: array<int>, count: array<int>)
    requires orig.Valid() && IsLabelImage(labels) && orig.C0.n == labels.n
    requires forall p :: 0 <= p < labels.n ==> labels.data[p] <= Imax
    ensures fresh(sumR) && fresh(sumG) && fresh(sumB) && fresh(count)
    ensures sumR.Length == sumG.Length == sumB.Length == count.Length == Imax + 1
    ensures forall l :: 0 <= l <= Imax ==>
      && sumR[l] == LabelSum(orig.C0.data[..], labels.data[..], l)
      && sumG[l] == LabelSum(orig.C1.data[..], labels.data[..], l)
      && sumB[l] == LabelSum(orig.C2.data[..], labels.data[..], l)
      && count[l] == LabelCount(labels.data[..], l)
  {
    ghost var R, G, B, L := orig.C0.data[..], orig.C1.data[..], orig.C2.data[..], labels.data[..];
    var n := labels.n;
    sumR := new int[Imax + 1](_ => 0);
    sumG := new int[Imax + 1](_ => 0);
    sumB := new int[Imax + 1](_ => 0);
    count := new int[Imax + 1](_ => 0);
    for p := 0 to n
      modifies sumR, sumG, sumB, count
      invariant forall l :: 0 <= l <= Imax ==>
        && sumR[l] == LabelSum(R[..p], L[..p], l)
        && sumG[l] == LabelSum(G[..p], L[..p], l)
        && sumB[l] == LabelSum(B[..p], L[..p], l)
        && count[l] == LabelCount(L[..p], l)
    {
      var lbl := labels.data[p];
      sumR[lbl] := sumR[lbl] + orig.C0.data[p];
      sumG[lbl] := sumG[lbl] + orig.C1.data[p];
      sumB[lbl] := sumB[lbl] + orig.C2.data[p];
      count[lbl] := count[lbl] + 1;
      forall l | 0 <= l <= Imax
        ensures LabelSum(R[..p + 1], L[..p + 1], l) == LabelSum(R[..p], L[..p], l) + (if L[p] == l then R[p] else 0)
        ensures LabelSum(G[..p + 1], L[..p + 1], l) == LabelSum(G[..p], L[..p], l) + (if L[p] == l then G[p] else 0)
        ensures LabelSum(B[..p + 1], L[..p + 1], l) == LabelSum(B[..p], L[..p], l) + (if L[p] == l then B[p] else 0)
        ensures LabelCount(L[..p + 1], l) == LabelCount(L[..p], l) + (if L[p] == l then 1 else 0)
      {
        LabelSumStep(R, L, p, l);
        LabelSumStep(G, L, p, l);
        LabelSumStep(B, L, p, l);
      }
    }
    assert R[..n] == R && G[..n] == G && B[..n] == B && L[..n] == L;
  }

  /** The second pass of ColorizeByAverageColor: for labels 1..Imax that
      occur, the truncated quotient of each channel's sum by the count; every
      other entry, label 0 included, stays 0. */
  method AveragesByLabel(sumR: seq<int>, sumG: seq<int>, sumB: seq<int>, count: seq<int>)
    returns (avgR: array<int>, avgG: array<int>, avgB: array<int>)
    requires |sumR| == |sumG| == |sumB| == |count| > 0
    ensures fresh(avgR) && fresh(avgG) && fresh(avgB)
    ensures avgR.Length == avgG.Length == avgB.Length == |count|
    ensures forall l :: 0 <= l < |count| ==>
      && avgR[l] == (if l >= 1 && count[l] > 0 then TruncDiv(sumR[l], count[l]) else 0)
      && avgG[l] == (if l >= 1 && count[l] > 0 then TruncDiv(sumG[l], count[l]) else 0)
      && avgB[l] == (if l >= 1 && count[l] > 0 then TruncDiv(sumB[l], count[l]) else 0)
  {
    avgR := new int[|count|](_ => 0);
    avgG := new int[|count|](_ => 0);
    avgB := new int[|count|](_ => 0);
    for i := 1 to |count|
      modifies avgR, avgG, avgB
      invariant forall l :: 0 <= l < |count| ==>
        && avgR[l] == (if 1 <= l < i && count[l] > 0 then TruncDiv(sumR[l], count[l]) else 0)
        && avgG[l] == (if 1 <= l < i && count[l] > 0 then TruncDiv(sumG[l], count[l]) else 0)
        && avgB[l] == (if 1 <= l < i && count[l] > 0 then TruncDiv(sumB[l], count[l]) else 0)
    {
      if count[i] > 0 {
        avgR[i] := TruncDiv(sumR[i], count[i]);
        avgG[i] := TruncDiv(sumG[i], count[i]);
        avgB[i] := TruncDiv(sumB[i], count[i]);
      }
    }
  }

  /** CImage::ColorizeByAverageColor: one pass accumulates per-label sums and
      counts, a second turns them into averages for labels 1..Imax (skipping
      labels that do not occur), a third paints every pixel with its label's
      average. */
  method ColorizeByAverageColor(orig: CImage, labels: Image32) returns (cimg: CImage)
    requires orig.Valid() && IsLabelImage(labels)
    requires orig.C0.ncols == labels.ncols && orig.C0.nrows == labels.nrows
    ensures cimg.Valid()
    ensures fresh(cimg) && fresh(cimg.C0.data) && fresh(cimg.C1.data) && fresh(cimg.C2.data)
    ensures cimg.C0.ncols == labels.ncols && cimg.C0.nrows == labels.nrows
    ensures forall p :: 0 <= p < labels.n ==>
      && cimg.C0.data[p] == LabelMean(orig.C0.data[..], labels.data[..], labels.data[p])
      && cimg.C1.data[p] == LabelMean(orig.C1.data[..], labels.data[..], labels.data[p])
      && cimg.C2.data[p] == LabelMean(orig.C2.data[..], labels.data[..], labels.data[p])
  {
    var Imax := GetMaxVal(labels);
    ghost var R, G, B, L := orig.C0.data[..], orig.C1.data[..], orig.C2.data[..], labels.data[..];
    var sumR, sumG, sumB, count := AccumulateByLabel(orig, labels, Imax);

    var avgR, avgG, avgB := AveragesByLabel(sumR[..], sumG[..], sumB[..], count[..]);
    assert forall l :: 0 <= l <= Imax ==>
      avgR[l] == LabelMean(R, L, l) && avgG[l] == LabelMean(G, L, l) && avgB[l] == LabelMean(B, L, l);

    cimg := new CImage.Create(labels.ncols, labels.nrows);
    PaintByLabel(cimg, labels, avgR[..], avgG[..], avgB[..]);
  }
}
