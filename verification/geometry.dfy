/** The window operations of the colour image: cutting out the rectangle
    between two corner pixels, and finding the bounding box of everything
    that differs from a background colour. */
module Geometry {
  import opened Planes
  import opened ColorImage
  import Color

  // ---------------------------------------------------------------------------
  // SubImage

  /** The corners SubImage accepts: l is the top-left and h the bottom-right
      corner of a non-empty rectangle inside an ncols x nrows image. */
  predicate WindowInside(l: Pixel, h: Pixel, ncols: int, nrows: int)
  {
    l.x >= 0 && l.y >= 0 && h.x < ncols && h.y < nrows && l.x <= h.x && l.y <= h.y
  }

  /** CImage::SubImage: null when the corners do not describe a window inside
      the image; otherwise a fresh image of the window's size whose pixel
      (x, y) in every channel is the source's pixel (l.x + x, l.y + y). */
  method SubImage(cimg: CImage, l: Pixel, h: Pixel) returns (sub: CImage?)
    requires cimg.Valid()
    ensures sub != null <==> WindowInside(l, h, cimg.C0.ncols, cimg.C0.nrows)
    ensures sub != null ==>
      && sub.Valid() && fresh(sub) && fresh(sub.C0.data) && fresh(sub.C1.data) && fresh(sub.C2.data)
      && sub.C0.ncols == h.x - l.x + 1 && sub.C0.nrows == h.y - l.y + 1
    ensures sub != null ==>
      forall x, y :: 0 <= x < sub.C0.ncols && 0 <= y < sub.C0.nrows ==>
        && SampleAt(sub.C0.data[..], x, y, sub.C0.ncols, sub.C0.nrows) == SampleAt(cimg.C0.data[..], l.x + x, l.y + y, cimg.C0.ncols, cimg.C0.nrows)
        && SampleAt(sub.C1.data[..], x, y, sub.C0.ncols, sub.C0.nrows) == SampleAt(cimg.C1.data[..], l.x + x, l.y + y, cimg.C0.ncols, cimg.C0.nrows)
        && SampleAt(sub.C2.data[..], x, y, sub.C0.ncols, sub.C0.nrows) == SampleAt(cimg.C2.data[..], l.x + x, l.y + y, cimg.C0.ncols, cimg.C0.nrows)
  {
    var ncols: int, nrows: int := cimg.C0.ncols, cimg.C0.nrows;
    sub := null;
    if l.x >= 0 && l.y >= 0 && h.x < ncols && h.y < nrows && l.x <= h.x && l.y <= h.y {
      var w, hh := h.x - l.x + 1, h.y - l.y + 1;
      var s := new CImage.Create(w, hh);
      CopyWindow(cimg, s, l, w, hh);
      sub := s;
    }
  }

  /** The copying loop of SubImage: the running index p walks the window in
      row-major order while (j, i) walks the corresponding source pixels. */
  method CopyWindow(cimg: CImage, sub: CImage, l: Pixel, w: nat, hh: nat)
    requires cimg.Valid() && sub.Valid()
    requires w > 0 && sub.C0.ncols == w && sub.C0.nrows == hh
    requires 0 <= l.x && l.x + w <= cimg.C0.ncols && 0 <= l.y && l.y + hh <= cimg.C0.nrows
    requires {sub.C0.data, sub.C1.data, sub.C2.data} !! {cimg.C0.data, cimg.C1.data, cimg.C2.data}
    modifies sub.C0.data, sub.C1.data, sub.C2.data
    ensures forall x, y :: 0 <= x < w && 0 <= y < hh ==>
      && SampleAt(sub.C0.data[..], x, y, w, hh) == SampleAt(cimg.C0.data[..], l.x + x, l.y + y, cimg.C0.ncols, cimg.C0.nrows)
      && SampleAt(sub.C1.data[..], x, y, w, hh) == SampleAt(cimg.C1.data[..], l.x + x, l.y + y, cimg.C0.ncols, cimg.C0.nrows)
      && SampleAt(sub.C2.data[..], x, y, w, hh) == SampleAt(cimg.C2.data[..], l.x + x, l.y + y, cimg.C0.ncols, cimg.C0.nrows)
  {
    var ncols: int, nrows: int := cimg.C0.ncols, cimg.C0.nrows;
    var s0, s1, s2 := cimg.C0.data, cimg.C1.data, cimg.C2.data;
    var c0, c1, c2 := sub.C0.data, sub.C1.data, sub.C2.data;
    // X[q], Y[q]: the window pixel that sample q was copied for; S[q]: its source offset
    ghost var X, Y, S := [], [], [];
    var p := 0;
    for i := l.y to l.y + hh
      modifies c0, c1, c2
      invariant p == (i - l.y) * w == |X| == |Y| == |S| && p <= w * hh
      invariant forall q :: 0 <= q < p ==> Copied(c0[q], c1[q], c2[q], s0, s1, s2, q, X[q], Y[q], S[q], l, w, hh, ncols)
    {
      MulMonotone(i - l.y + 1, hh, w);
      assert (i - l.y + 1) * w == (i - l.y) * w + w;
      for j := l.x to l.x + w
        modifies c0, c1, c2
        invariant p == (i - l.y) * w + (j - l.x) == |X| == |Y| == |S|
        invariant (i - l.y) * w + w <= w * hh
        invariant forall q :: 0 <= q < p ==> Copied(c0[q], c1[q], c2[q], s0, s1, s2, q, X[q], Y[q], S[q], l, w, hh, ncols)
      {
        OffsetInPlane(j, i, ncols, nrows);
        OffsetInPlane(j - l.x, i - l.y, w, hh);
        var q := j + i * ncols;
        c0[p] := s0[q];
        c1[p] := s1[q];
        c2[p] := s2[q];
        X, Y, S := X + [j - l.x], Y + [i - l.y], S + [q];
        p := p + 1;
      }
    }
    forall x, y | 0 <= x < w && 0 <= y < hh
      ensures SampleAt(c0[..], x, y, w, hh) == SampleAt(s0[..], l.x + x, l.y + y, ncols, nrows)
      ensures SampleAt(c1[..], x, y, w, hh) == SampleAt(s1[..], l.x + x, l.y + y, ncols, nrows)
      ensures SampleAt(c2[..], x, y, w, hh) == SampleAt(s2[..], l.x + x, l.y + y, ncols, nrows)
    {
      var q := Offset(x, y, w);
      OffsetInPlane(x, y, w, hh);
      OffsetDivMod(x, y, w);
      OffsetDivMod(X[q], Y[q], w);
    }
  }

  /** Window sample q, now holding the values v0, v1, v2, was copied for window
      pixel (x, y) from source offset o, the position of pixel (l.x + x, l.y + y). */
  ghost predicate Copied(v0: int, v1: int, v2: int, s0: array<int>, s1: array<int>, s2: array<int>,
                         q: int, x: int, y: int, o: int, l: Pixel, w: int, hh: int, ncols: int)
    reads s0, s1, s2
  {
    && 0 <= x < w && 0 <= y < hh && q == Offset(x, y, w)
    && o == Offset(l.x + x, l.y + y, ncols)
    && 0 <= o < s0.Length && o < s1.Length && o < s2.Length
    && v0 == s0[o] && v1 == s1[o] && v2 == s2[o]
  }

  // ---------------------------------------------------------------------------
  // MBB

  /** Pixel (x, y) of an ncols x nrows image with channels r, g, b is
      foreground: its packed colour differs from the background colour. */
  predicate Foreground(r: seq<int>, g: seq<int>, b: seq<int>, ncols: int, nrows: int, bkgcolor: int, x: int, y: int)
    requires |r| == |g| == |b| == ncols * nrows
  {
    && 0 <= x < ncols && 0 <= y < nrows
    && (OffsetInPlane(x, y, ncols, nrows);
        var o := Offset(x, y, ncols);
        Color.Triplet(r[o], g[o], b[o]) != bkgcolor)
  }

  /** The pixels (x, y) that a row-major scan has visited before reaching (j, i). */
  predicate Scanned(x: int, y: int, i: int, j: int)
  {
    y < i || (y == i && x < j)
  }

  /** Ghost witnesses of the four bounds of a box: foreground pixels lying on
      its left, top, right and bottom edges. */
  datatype Witnesses = Witnesses(lx: Pixel, ly: Pixel, hx: Pixel, hy: Pixel)

  /** What MBB's corners l, h satisfy once the scan has reached pixel (j, i):
      every visited foreground pixel is inside [l, h]; while none has been
      found (found is false) the corners keep their initial values; once one
      has, each bound is attained by a visited foreground pixel, so [l, h]
      is exactly the bounding box of the foreground visited so far. */
  ghost predicate ScanInvariant(R: seq<int>, G: seq<int>, B: seq<int>, nc: int, nr: int, bkgcolor: int,
                                l: Pixel, h: Pixel, found: bool, w: Witnesses, i: int, j: int)
    requires |R| == |G| == |B| == nc * nr
  {
    && (forall x, y :: Foreground(R, G, B, nc, nr, bkgcolor, x, y) && Scanned(x, y, i, j) ==>
          l.x <= x <= h.x && l.y <= y <= h.y)
    && (!found ==> l == Pixel(nc - 1, nr - 1) && h == Pixel(0, 0))
    && (!found ==> forall x, y :: Scanned(x, y, i, j) ==> !Foreground(R, G, B, nc, nr, bkgcolor, x, y))
    && (found ==>
          && Foreground(R, G, B, nc, nr, bkgcolor, w.lx.x, w.lx.y) && Scanned(w.lx.x, w.lx.y, i, j) && w.lx.x == l.x
          && Foreground(R, G, B, nc, nr, bkgcolor, w.ly.x, w.ly.y) && Scanned(w.ly.x, w.ly.y, i, j) && w.ly.y == l.y
          && Foreground(R, G, B, nc, nr, bkgcolor, w.hx.x, w.hx.y) && Scanned(w.hx.x, w.hx.y, i, j) && w.hx.x == h.x
          && Foreground(R, G, B, nc, nr, bkgcolor, w.hy.x, w.hy.y) && Scanned(w.hy.x, w.hy.y, i, j) && w.hy.y == h.y)
  }

  /** CImage::MBB: the minimum bounding box of the foreground. Every
      foreground pixel lies within [l, h], and each of the four bounds is
      attained by some foreground pixel; when there is no foreground the
      corners keep their initial values (ncols - 1, nrows - 1) and (0, 0). */
  method MBB(cimg: CImage, bkgcolor: int) returns (l: Pixel, h: Pixel)
    requires cimg.Valid()
    ensures var R, G, B, nc, nr := cimg.C0.data[..], cimg.C1.data[..], cimg.C2.data[..], cimg.C0.ncols, cimg.C0.nrows;
      && (forall x, y :: Foreground(R, G, B, nc, nr, bkgcolor, x, y) ==> l.x <= x <= h.x && l.y <= y <= h.y)
      && ((exists x, y :: Foreground(R, G, B, nc, nr, bkgcolor, x, y)) ==>
            && (exists y :: Foreground(R, G, B, nc, nr, bkgcolor, l.x, y))
            && (exists x :: Foreground(R, G, B, nc, nr, bkgcolor, x, l.y))
            && (exists y :: Foreground(R, G, B, nc, nr, bkgcolor, h.x, y))
            && (exists x :: Foreground(R, G, B, nc, nr, bkgcolor, x, h.y)))
      && ((forall x, y :: !Foreground(R, G, B, nc, nr, bkgcolor, x, y)) ==>
            l == Pixel(nc - 1, nr - 1) && h == Pixel(0, 0))
  {
    var ncols: int, nrows: int := cimg.C0.ncols, cimg.C0.nrows;
    ghost var R, G, B := cimg.C0.data[..], cimg.C1.data[..], cimg.C2.data[..];
    l := Pixel(ncols - 1, nrows - 1);
    h := Pixel(0, 0);
    ghost var found := false;
    ghost var w := Witnesses(Pixel(0, 0), Pixel(0, 0), Pixel(0, 0), Pixel(0, 0));
    for i := 0 to nrows
      invariant ScanInvariant(R, G, B, ncols, nrows, bkgcolor, l, h, found, w, i, 0)
    {
      l, h, found, w := ScanRow(cimg, bkgcolor, i, l, h, found, w);
    }
    assert forall x, y :: Foreground(R, G, B, ncols, nrows, bkgcolor, x, y) ==> Scanned(x, y, nrows, 0);
  }

  /** One pass of MBB's inner loop: row i is scanned from left to right and
      the corners are widened to cover its foreground pixels. */
  method ScanRow(cimg: CImage, bkgcolor: int, i: int, l0: Pixel, h0: Pixel, ghost found0: bool, ghost w0: Witnesses)
    returns (l: Pixel, h: Pixel, ghost found: bool, ghost w: Witnesses)
    requires cimg.Valid() && 0 <= i < cimg.C0.nrows
    requires ScanInvariant(cimg.C0.data[..], cimg.C1.data[..], cimg.C2.data[..], cimg.C0.ncols, cimg.C0.nrows,
                           bkgcolor, l0, h0, found0, w0, i, 0)
    ensures ScanInvariant(cimg.C0.data[..], cimg.C1.data[..], cimg.C2.data[..], cimg.C0.ncols, cimg.C0.nrows,
                          bkgcolor, l, h, found, w, i + 1, 0)
  {
    var ncols: int, nrows: int := cimg.C0.ncols, cimg.C0.nrows;
    ghost var R, G, B := cimg.C0.data[..], cimg.C1.data[..], cimg.C2.data[..];
    l, h, found, w := l0, h0, found0, w0;
    for j := 0 to ncols
      invariant ScanInvariant(R, G, B, ncols, nrows, bkgcolor, l, h, found, w, i, j)
    {
      l, h, found, w := VisitPixel(cimg, bkgcolor, i, j, l, h, found, w, R, G, B);
    }
  }

  /** The corners after visiting pixel (x, y): widened to cover it when it is
      foreground (fg), unchanged otherwise. */
  predicate Widened(l0: Pixel, h0: Pixel, l: Pixel, h: Pixel, x: int, y: int, fg: bool)
  {
    if fg then
      && l == Pixel(if x < l0.x then x else l0.x, if y < l0.y then y else l0.y)
      && h == Pixel(if x > h0.x then x else h0.x, if y > h0.y then y else h0.y)
    else l == l0 && h == h0
  }

  /** The body of MBB's inner loop: pixel (j, i) is packed into one colour
      and, when it differs from the background, the corners are widened to
      cover it. */
  method VisitPixel(cimg: CImage, bkgcolor: int, i: int, j: int, l0: Pixel, h0: Pixel, ghost found0: bool, ghost w0: Witnesses,
                    ghost R: seq<int>, ghost G: seq<int>, ghost B: seq<int>)
    returns (l: Pixel, h: Pixel, ghost found: bool, ghost w: Witnesses)
    requires cimg.Valid() && 0 <= i < cimg.C0.nrows && 0 <= j < cimg.C0.ncols
    requires R == cimg.C0.data[..] && G == cimg.C1.data[..] && B == cimg.C2.data[..]
    requires ScanInvariant(R, G, B, cimg.C0.ncols, cimg.C0.nrows, bkgcolor, l0, h0, found0, w0, i, j)
    ensures ScanInvariant(R, G, B, cimg.C0.ncols, cimg.C0.nrows, bkgcolor, l, h, found, w, i, j + 1)
    ensures Widened(l0, h0, l, h, j, i, Foreground(R, G, B, cimg.C0.ncols, cimg.C0.nrows, bkgcolor, j, i))
  {
    var ncols: int, nrows: int := cimg.C0.ncols, cimg.C0.nrows;
    l, h, found, w := l0, h0, found0, w0;
    OffsetInPlane(j, i, ncols, nrows);
    var p := j + i * ncols;
    var color := Color.Triplet(cimg.C0.data[p], cimg.C1.data[p], cimg.C2.data[p]);
    if color != bkgcolor {
      // the four comparisons of the source, each widening one bound
      l := Pixel(if j < l.x then j else l.x, if i < l.y then i else l.y);
      h := Pixel(if j > h.x then j else h.x, if i > h.y then i else h.y);
      w := Witnesses(if l.x == j then Pixel(j, i) else w.lx, if l.y == i then Pixel(j, i) else w.ly,
                     if h.x == j then Pixel(j, i) else w.hx, if h.y == i then Pixel(j, i) else w.hy);
      found := true;
      VisitForeground(R, G, B, ncols, nrows, bkgcolor, l0, h0, found0, w0, l, h, w, i, j);
    } else {
      VisitBackground(R, G, B, ncols, nrows, bkgcolor, l, h, found, w, i, j);
    }
  }

  /** Visiting a background pixel leaves the corners and witnesses as they are. */
  lemma VisitBackground(R: seq<int>, G: seq<int>, B: seq<int>, nc: int, nr: int, bkgcolor: int,
                        l: Pixel, h: Pixel, found: bool, w: Witnesses, i: int, j: int)
    requires |R| == |G| == |B| == nc * nr && 0 <= i < nr && 0 <= j < nc
    requires ScanInvariant(R, G, B, nc, nr, bkgcolor, l, h, found, w, i, j)
    requires !Foreground(R, G, B, nc, nr, bkgcolor, j, i)
    ensures ScanInvariant(R, G, B, nc, nr, bkgcolor, l, h, found, w, i, j + 1)
  {
  }

  /** Visiting a foreground pixel widens each bound to include it and makes it
      the witness of every bound it now lies on. */
  lemma VisitForeground(R: seq<int>, G: seq<int>, B: seq<int>, nc: int, nr: int, bkgcolor: int,
                        l0: Pixel, h0: Pixel, found0: bool, w0: Witnesses,
                        l: Pixel, h: Pixel, w: Witnesses, i: int, j: int)
    requires |R| == |G| == |B| == nc * nr && 0 <= i < nr && 0 <= j < nc
    requires ScanInvariant(R, G, B, nc, nr, bkgcolor, l0, h0, found0, w0, i, j)
    requires Foreground(R, G, B, nc, nr, bkgcolor, j, i)
    requires l == Pixel(if j < l0.x then j else l0.x, if i < l0.y then i else l0.y)
    requires h == Pixel(if j > h0.x then j else h0.x, if i > h0.y then i else h0.y)
    requires w == Witnesses(if l.x == j then Pixel(j, i) else w0.lx, if l.y == i then Pixel(j, i) else w0.ly,
                            if h.x == j then Pixel(j, i) else w0.hx, if h.y == i then Pixel(j, i) else w0.hy)
    ensures ScanInvariant(R, G, B, nc, nr, bkgcolor, l, h, true, w, i, j + 1)
  {
  }
}
