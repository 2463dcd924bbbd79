/** The binary PPM ("P6") file format as CImage::Write produces it and
    CImage::Read consumes it: a text header "P6", the width and height in
    decimal, the maximum value, then one byte per channel per pixel, red,
    green and blue interleaved in row-major order. A file is a sequence of
    bytes; reading past its end yields -1, as fgetc does at end of file. */
module Codec {
  import opened ColorImage

  type Byte = x: int | 0 <= x < 256

  /** The decoded content of a colour image: its size and its three planes. */
  datatype Pixmap = Pixmap(ncols: nat, nrows: nat, r: seq<int>, g: seq<int>, b: seq<int>)

  /** The size and the offset of the first pixel byte that a header announces. */
  datatype Header = Header(ncols: nat, nrows: nat, start: nat)

  datatype CodecError = NotP6 | BadDimensions

  datatype Result<T> = Ok(value: T) | Err(error: CodecError)

  datatype Option<T> = None | Some(value: T)

  const NEWLINE: Byte := 10
  const SPACE: Byte := 32
  /** The magic number "P6". */
  const MAGIC: seq<Byte> := [80, 54]
  /** The maximum-value line "255\n". */
  const MAXVAL_LINE: seq<Byte> := [50, 53, 53, 10]

  /** Three planes of one size, the shape every pixmap of an image has. */
  predicate WellSized(p: Pixmap)
  {
    |p.r| == |p.g| == |p.b| == p.ncols * p.nrows
  }

  /** Every sample fits in the byte the format stores it in. */
  predicate EightBit(p: Pixmap)
  {
    && (forall i :: 0 <= i < |p.r| ==> 0 <= p.r[i] < 256)
    && (forall i :: 0 <= i < |p.g| ==> 0 <= p.g[i] < 256)
    && (forall i :: 0 <= i < |p.b| ==> 0 <= p.b[i] < 256)
  }

  // ---------------------------------------------------------------------------
  // Decimal numbers

  predicate IsDigit(c: int)
  {
    48 <= c <= 57
  }

  /** The white-space characters of C's isspace: blank, \t, \n, \v, \f, \r. */
  predicate IsSpace(c: int)
  {
    c == 32 || 9 <= c <= 13
  }

  predicate AllDigits(ds: seq<Byte>)
  {
    forall i :: 0 <= i < |ds| ==> IsDigit(ds[i])
  }

  /** The decimal text fprintf's %d writes for a non-negative number. */
  function Decimal(n: nat): (ds: seq<Byte>)
    ensures |ds| > 0 && AllDigits(ds)
  {
    if n < 10 then [48 + n] else Decimal(n / 10) + [48 + n % 10]
  }

  /** The number a string of decimal digits denotes, as sscanf's %d reads it. */
  function DigitsValue(ds: seq<Byte>): nat
    requires AllDigits(ds)
  {
    if |ds| == 0 then 0 else DigitsValue(ds[..|ds| - 1]) * 10 + (ds[|ds| - 1] - 48)
  }

  /** Reading back a printed number gives the number. */
  lemma {:induction false} DigitsValueOfDecimal(n: nat)
    ensures DigitsValue(Decimal(n)) == n
  {
    if n >= 10 {
      var ds := Decimal(n);
      assert ds[..|ds| - 1] == Decimal(n / 10);
      DigitsValueOfDecimal(n / 10);
    }
  }

  // ---------------------------------------------------------------------------
  // Scanning

  /** The first position at or after k that is not white space (or the end). */
  function SkipSpace(f: seq<Byte>, k: nat): (e: nat)
    requires k <= |f|
    ensures k <= e <= |f| && (e < |f| ==> !IsSpace(f[e]))
    ensures forall m :: k <= m < e ==> IsSpace(f[m])
    decreases |f| - k
  {
    if k < |f| && IsSpace(f[k]) then SkipSpace(f, k + 1) else k
  }

  /** The end of the white-space-free token that starts at k (%s). */
  function TokenEnd(f: seq<Byte>, k: nat): (e: nat)
    requires k <= |f|
    ensures k <= e <= |f| && (e < |f| ==> IsSpace(f[e]))
    ensures forall m :: k <= m < e ==> !IsSpace(f[m])
    decreases |f| - k
  {
    if k < |f| && !IsSpace(f[k]) then TokenEnd(f, k + 1) else k
  }

  /** The end of the C string that starts at k inside the token [k, e):
      the first 0 byte, where strcmp stops, or e when the token has none. */
  function NulEnd(f: seq<Byte>, k: nat, e: nat): (n: nat)
    requires k <= e <= |f|
    ensures k <= n <= e && (n < e ==> f[n] == 0)
    ensures forall m :: k <= m < n ==> f[m] != 0
    decreases e - k
  {
    if k < e && f[k] != 0 then NulEnd(f, k + 1, e) else k
  }

  /** The end of the run of decimal digits that starts at k (%d). */
  function DigitsEnd(f: seq<Byte>, k: nat): (e: nat)
    requires k <= |f|
    ensures k <= e <= |f| && (e < |f| ==> !IsDigit(f[e]))
    ensures forall m :: k <= m < e ==> IsDigit(f[m])
    decreases |f| - k
  {
    if k < |f| && IsDigit(f[k]) then DigitsEnd(f, k + 1) else k
  }

  /** The position of the first newline at or after k, or the end of the file. */
  function LineEnd(f: seq<Byte>, k: nat): (e: nat)
    requires k <= |f|
    ensures k <= e <= |f| && (e < |f| ==> f[e] == NEWLINE)
    ensures forall m :: k <= m < e ==> f[m] != NEWLINE
    decreases |f| - k
  {
    if k < |f| && f[k] != NEWLINE then LineEnd(f, k + 1) else k
  }

  /** The position after the line end e: past the newline, if there is one. */
  function NextLine(f: seq<Byte>, e: nat): (k: nat)
    requires e <= |f|
    ensures e <= k <= |f| && (k == e + 1 <==> e < |f|)
  {
    if e < |f| then e + 1 else e
  }

  /** sscanf(line, "%d %d"): two unsigned decimal numbers, each after optional white space. */
  function ParseDims(line: seq<Byte>): Option<(nat, nat)>
  {
    var a := SkipSpace(line, 0);
    var b := DigitsEnd(line, a);
    if a == b then None
    else
      var c := SkipSpace(line, b);
      var d := DigitsEnd(line, c);
      if c == d then None
      else Some((DigitsValue(line[a..b]), DigitsValue(line[c..d])))
  }

  /** The start of the pixel bytes, given the end e of the dimensions line:
      past that line and past the maximum-value line that follows it. */
  function PixelsStart(f: seq<Byte>, e: nat): (k: nat)
    requires e <= |f|
    ensures e <= k <= |f|
  {
    var k3 := NextLine(f, e);
    NextLine(f, LineEnd(f, k3))
  }

  /** The dimensions of the line that starts at k, with the end of the line
      they were read from: when that line does not hold two numbers, Read
      reads the next line in its place. */
  function DimsLine(f: seq<Byte>, k: nat): (r: Option<(nat, nat, nat)>)
    requires k <= |f|
    ensures r.Some? ==> k <= r.value.2 <= |f|
  {
    var e := LineEnd(f, k);
    var dims := ParseDims(f[k..e]);
    if dims.Some? then Some((dims.value.0, dims.value.1, e))
    else
      var k' := NextLine(f, e);
      var e' := LineEnd(f, k');
      var retry := ParseDims(f[k'..e']);
      if retry.None? then None else Some((retry.value.0, retry.value.1, e'))
  }

  /** The header as Read scans it: a white-space separated token whose bytes
      up to its first 0 byte (what strcmp compares) must be "P6"; after the white space that follows it, the dimensions line; then
      a line holding the maximum value, whose value is not used. The pixel
      bytes start after that line. */
  function ParseHeader(f: seq<Byte>): (r: Result<Header>)
    ensures var k0 := SkipSpace(f, 0);
      r == Err(NotP6) <==> f[k0..NulEnd(f, k0, TokenEnd(f, k0))] != MAGIC
    ensures r.Ok? ==> r.value.start <= |f|
  {
    var k0 := SkipSpace(f, 0);
    var k1 := TokenEnd(f, k0);
    if f[k0..NulEnd(f, k0, k1)] != MAGIC then Err(NotP6)
    else
      var dims := DimsLine(f, SkipSpace(f, k1));
      if dims.None? then Err(BadDimensions)
      else Ok(Header(dims.value.0, dims.value.1, PixelsStart(f, dims.value.2)))
  }

  /** strcmp ends the magic token at a 0 byte: a file that starts with "P6"
      and a 0 byte is not refused as not P6, whatever follows. */
  lemma MagicEndsAtNul(f: seq<Byte>)
    requires |f| >= 3 && f[0] == 80 && f[1] == 54 && f[2] == 0
    ensures ParseHeader(f) != Err(NotP6)
  {
    assert SkipSpace(f, 0) == 0;
    assert NulEnd(f, 0, TokenEnd(f, 0)) == 2;
  }

  /** fgetc: the byte at position k, or -1 (EOF) past the end of the file. */
  function ByteAt(f: seq<Byte>, k: nat): (v: int)
    ensures -1 <= v < 256
    ensures v == -1 <==> k >= |f|
  {
    if k < |f| then f[k] else -1
  }

  /** Channel c (0 red, 1 green, 2 blue) of the n pixels whose bytes start at `start`. */
  function Samples(f: seq<Byte>, start: nat, n: nat, c: nat): (s: seq<int>)
    ensures |s| == n
    ensures forall i :: 0 <= i < n ==> s[i] == ByteAt(f, start + 3 * i + c)
  {
    seq(n, i requires 0 <= i < n => ByteAt(f, start + 3 * i + c))
  }

  /** The three planes that follow a header: ncols * nrows pixels of three bytes each. */
  function PlanesAfter(f: seq<Byte>, h: Header): (p: Pixmap)
    ensures WellSized(p) && p.ncols == h.ncols && p.nrows == h.nrows
    ensures forall i :: 0 <= i < |p.r| ==> -1 <= p.r[i] < 256 && -1 <= p.g[i] < 256 && -1 <= p.b[i] < 256
  {
    var n := h.ncols * h.nrows;
    Pixmap(h.ncols, h.nrows, Samples(f, h.start, n, 0), Samples(f, h.start, n, 1), Samples(f, h.start, n, 2))
  }

  /** The image CImage::Read makes of a file. */
  function Decode(f: seq<Byte>): (r: Result<Pixmap>)
    ensures r.Err? <==> ParseHeader(f).Err?
    ensures r.Err? ==> r.error == ParseHeader(f).error
    ensures r.Ok? ==> WellSized(r.value)
    ensures r.Ok? ==> forall i :: 0 <= i < |r.value.r| ==>
      -1 <= r.value.r[i] < 256 && -1 <= r.value.g[i] < 256 && -1 <= r.value.b[i] < 256
  {
    var hdr := ParseHeader(f);
    if hdr.Err? then Err(hdr.error) else Ok(PlanesAfter(f, hdr.value))
  }

  // ---------------------------------------------------------------------------
  // Writing

  /** The header CImage::Write prints: "P6\n", "<ncols> <nrows>\n", "255\n". */
  function HeaderText(ncols: nat, nrows: nat): seq<Byte>
  {
    [80, 54, NEWLINE] + Decimal(ncols) + [SPACE] + Decimal(nrows) + [NEWLINE] + MAXVAL_LINE
  }

  /** The pixel bytes fputc writes: for each pixel its red, green and blue
      samples, each reduced to the unsigned char fputc converts it to. */
  function Payload(r: seq<int>, g: seq<int>, b: seq<int>): (s: seq<Byte>)
    requires |r| == |g| == |b|
  {
    if |r| == 0 then []
    else
      var k := |r| - 1;
      Payload(r[..k], g[..k], b[..k]) + [r[k] % 256, g[k] % 256, b[k] % 256]
  }

  /** Byte 3i + c of the payload is channel c of pixel i, modulo 256. */
  lemma {:induction false} PayloadAt(r: seq<int>, g: seq<int>, b: seq<int>)
    requires |r| == |g| == |b|
    ensures |Payload(r, g, b)| == 3 * |r|
    ensures forall i :: 0 <= i < |r| ==>
      && Payload(r, g, b)[3 * i] == r[i] % 256
      && Payload(r, g, b)[3 * i + 1] == g[i] % 256
      && Payload(r, g, b)[3 * i + 2] == b[i] % 256
  {
    if |r| > 0 {
      var k := |r| - 1;
      PayloadAt(r[..k], g[..k], b[..k]);
    }
  }

  /** The file CImage::Write produces for an image. */
  function Encode(p: Pixmap): (f: seq<Byte>)
    requires WellSized(p)
  {
    HeaderText(p.ncols, p.nrows) + Payload(p.r, p.g, p.b)
  }

  // ---------------------------------------------------------------------------
  // Round trip

  /** Scanning a run of digits stops exactly at its end, whether that is a
      non-digit or the end of the text. */
  lemma {:induction false} DigitsEndOf(f: seq<Byte>, k: nat, ds: seq<Byte>)
    requires k + |ds| <= |f| && f[k..k + |ds|] == ds && AllDigits(ds)
    requires k + |ds| < |f| ==> !IsDigit(f[k + |ds|])
    ensures DigitsEnd(f, k) == k + |ds|
    decreases |ds|
  {
    if |ds| > 0 {
      assert f[k] == ds[0];
      assert f[k + 1..k + 1 + |ds[1..]|] == ds[1..];
      DigitsEndOf(f, k + 1, ds[1..]);
    }
  }

  /** Scanning for the newline stops at the first one. */
  lemma {:induction false} LineEndAt(f: seq<Byte>, k: nat, e: nat)
    requires k <= e < |f| && f[e] == NEWLINE
    requires forall m :: k <= m < e ==> f[m] != NEWLINE
    ensures LineEnd(f, k) == e
    decreases e - k
  {
    if k < e {
      LineEndAt(f, k + 1, e);
    }
  }

  /** Two runs of digits separated by a blank parse as the two numbers they denote. */
  lemma ParseTwoNumbers(d1: seq<Byte>, d2: seq<Byte>, line: seq<Byte>)
    requires |d1| > 0 && |d2| > 0 && AllDigits(d1) && AllDigits(d2)
    requires |line| == |d1| + 1 + |d2|
    requires line[0..|d1|] == d1 && line[|d1| + 1..|d1| + 1 + |d2|] == d2
    requires IsDigit(line[0]) && IsDigit(line[|d1| + 1]) && !IsDigit(line[|d1|])
    requires SkipSpace(line, |d1|) == |d1| + 1
    ensures ParseDims(line) == Some((DigitsValue(d1), DigitsValue(d2)))
  {
    var b, c, d := |d1|, |d1| + 1, |d1| + 1 + |d2|;
    NoSkipBeforeDigit(line, 0);
    DigitsEndOf(line, 0, d1);
    NoSkipBeforeDigit(line, c);
    DigitsEndOf(line, c, d2);
    ParseDimsAt(line, b, c, d, d1, d2);
  }

  /** Where the two numbers and the blank lie in the joined line. */
  lemma JoinedLayout(d1: seq<Byte>, d2: seq<Byte>, line: seq<Byte>)
    requires |d1| > 0 && |d2| > 0 && AllDigits(d1) && AllDigits(d2)
    requires line == d1 + [SPACE] + d2
    ensures |line| == |d1| + 1 + |d2|
    ensures line[0..|d1|] == d1 && line[|d1| + 1..|d1| + 1 + |d2|] == d2
    ensures IsDigit(line[0]) && IsDigit(line[|d1| + 1]) && !IsDigit(line[|d1|])
    ensures SkipSpace(line, |d1|) == |d1| + 1
  {
    assert line[0] == d1[0];
    assert line[|d1| + 1] == d2[0];
    assert line[|d1|] == SPACE;
  }

  /** White space skipping stops at once on a digit. */
  lemma NoSkipBeforeDigit(f: seq<Byte>, k: nat)
    requires k < |f| && IsDigit(f[k])
    ensures SkipSpace(f, k) == k
  {
  }

  /** ParseDims on a line whose first number starts at 0 and ends at b and
      whose second number runs from c to d. */
  lemma ParseDimsAt(line: seq<Byte>, b: nat, c: nat, d: nat, d1: seq<Byte>, d2: seq<Byte>)
    requires 0 < b <= c < d <= |line|
    requires SkipSpace(line, 0) == 0 && DigitsEnd(line, 0) == b
    requires SkipSpace(line, b) == c && DigitsEnd(line, c) == d
    requires line[0..b] == d1 && line[c..d] == d2
    ensures ParseDims(line) == Some((DigitsValue(d1), DigitsValue(d2)))
  {
  }

  /** The header Write prints parses back to the dimensions, with the pixel
      bytes starting right after it. */
  lemma HeaderOfText(ncols: nat, nrows: nat, payload: seq<Byte>)
    ensures ParseHeader(HeaderText(ncols, nrows) + payload) == Ok(Header(ncols, nrows, |HeaderText(ncols, nrows)|))
  {
    WrittenHeaderScan(ncols, nrows, payload);
    HeaderAfterMagic(HeaderText(ncols, nrows) + payload, ncols, nrows, |HeaderText(ncols, nrows)| - 5);
  }

  /** What each step of the header scan finds in a file that starts with the header Write prints. */
  lemma WrittenHeaderScan(ncols: nat, nrows: nat, payload: seq<Byte>)
    ensures |HeaderText(ncols, nrows)| >= 5
    ensures var f := HeaderText(ncols, nrows) + payload;
      && |f| > 3 && SkipSpace(f, 0) == 0 && TokenEnd(f, 0) == 2 && f[0..2] == MAGIC && SkipSpace(f, 2) == 3
      && DimsLine(f, 3) == Some((ncols, nrows, |HeaderText(ncols, nrows)| - 5))
      && PixelsStart(f, |HeaderText(ncols, nrows)| - 5) == |HeaderText(ncols, nrows)|
  {
    var d1, d2 := Decimal(ncols), Decimal(nrows);
    var line := d1 + [SPACE] + d2;
    var H := HeaderText(ncols, nrows);
    assert H == [80, 54, NEWLINE] + line + ([NEWLINE] + MAXVAL_LINE);
    assert line[0] == d1[0];
    HeaderLayout(line, H, payload);
    HeaderOfDigits(d1, d2, line, H + payload);
    DigitsValueOfDecimal(ncols);
    DigitsValueOfDecimal(nrows);
  }

  /** In a file that starts with "P6\n", a line of two runs of digits
      separated by a blank, and "255\n", the scan finds the magic token, reads
      the numbers the digits denote from the first dimensions line, and
      places the pixel bytes right after the maximum-value line. */
  lemma HeaderOfDigits(d1: seq<Byte>, d2: seq<Byte>, line: seq<Byte>, f: seq<Byte>)
    requires |d1| > 0 && |d2| > 0 && AllDigits(d1) && AllDigits(d2)
    requires line == d1 + [SPACE] + d2
    requires 3 + |line| + 5 <= |f| && f[..3] == [80, 54, NEWLINE] && IsDigit(f[3])
    requires f[3..3 + |line|] == line
    requires f[3 + |line|..3 + |line| + 5] == [NEWLINE] + MAXVAL_LINE
    ensures SkipSpace(f, 0) == 0 && TokenEnd(f, 0) == 2 && f[0..2] == MAGIC && SkipSpace(f, 2) == 3
    ensures DimsLine(f, 3) == Some((DigitsValue(d1), DigitsValue(d2), 3 + |line|))
    ensures PixelsStart(f, 3 + |line|) == 3 + |line| + 5
  {
    MagicLine(f);
    DimsLineOfDigits(d1, d2, line, f);
  }

  /** Where the parts of a header lie in a file that starts with it. */
  lemma HeaderLayout(line: seq<Byte>, H: seq<Byte>, payload: seq<Byte>)
    requires H == [80, 54, NEWLINE] + line + ([NEWLINE] + MAXVAL_LINE)
    requires |line| > 0 && IsDigit(line[0])
    ensures |H| == 3 + |line| + 5 && |H + payload| > 3
    ensures (H + payload)[..3] == [80, 54, NEWLINE] && IsDigit((H + payload)[3])
    ensures (H + payload)[3..3 + |line|] == line
    ensures (H + payload)[3 + |line|..3 + |line| + 5] == [NEWLINE] + MAXVAL_LINE
  {
    var f := H + payload;
    assert f[3] == line[0];
  }

  /** A P6 file whose dimensions line at position 3 is read as (a, b) has that header. */
  lemma HeaderAfterMagic(f: seq<Byte>, a: nat, b: nat, e: nat)
    requires |f| > 3 && SkipSpace(f, 0) == 0 && TokenEnd(f, 0) == 2 && f[0..2] == MAGIC && SkipSpace(f, 2) == 3
    requires DimsLine(f, 3) == Some((a, b, e))
    ensures ParseHeader(f) == Ok(Header(a, b, PixelsStart(f, e)))
  {
    assert f[0] == 80 && f[1] == 54 by { assert f[0..2][0] == f[0] && f[0..2][1] == f[1]; }
    assert NulEnd(f, 0, 2) == 2;
  }

  /** A file that starts with "P6\n" and a digit: the magic token is the
      first two bytes, and the dimensions line starts at position 3. */
  lemma MagicLine(f: seq<Byte>)
    requires |f| > 3 && f[..3] == [80, 54, NEWLINE] && IsDigit(f[3])
    ensures SkipSpace(f, 0) == 0 && TokenEnd(f, 0) == 2 && f[0..2] == MAGIC
    ensures SkipSpace(f, 2) == 3
  {
    assert f[0] == 80 && f[1] == 54 && f[2] == NEWLINE by {
      assert f[..3][0] == f[0] && f[..3][1] == f[1] && f[..3][2] == f[2];
    }
    assert TokenEnd(f, 2) == 2;
    assert SkipSpace(f, 3) == 3;
  }

  /** A dimensions line of two numbers at position 3, followed by the
      maximum-value line, is read on the first attempt, and the pixel data
      starts after the maximum-value line. */
  lemma DimsLineOfDigits(d1: seq<Byte>, d2: seq<Byte>, line: seq<Byte>, f: seq<Byte>)
    requires |d1| > 0 && |d2| > 0 && AllDigits(d1) && AllDigits(d2)
    requires line == d1 + [SPACE] + d2
    requires 3 + |line| + 5 <= |f| && f[3..3 + |line|] == line
    requires f[3 + |line|..3 + |line| + 5] == [NEWLINE] + MAXVAL_LINE
    ensures DimsLine(f, 3) == Some((DigitsValue(d1), DigitsValue(d2), 3 + |line|))
    ensures PixelsStart(f, 3 + |line|) == 3 + |line| + 5
  {
    var e2 := 3 + |line|;
    assert f[e2] == NEWLINE by {
      assert f[e2..e2 + 5][0] == f[e2];
    }
    forall m | 3 <= m < e2
      ensures f[m] != NEWLINE
    {
      assert f[m] == line[m - 3];
    }
    LineEndAt(f, 3, e2);
    JoinedLayout(d1, d2, line);
    ParseTwoNumbers(d1, d2, line);
    FirstDimsLine(f, 3, e2, DigitsValue(d1), DigitsValue(d2));
    MaxvalLine(f, e2);
  }

  /** A dimensions line that holds two numbers is used as it is. */
  lemma FirstDimsLine(f: seq<Byte>, k: nat, e: nat, a: nat, b: nat)
    requires k <= e <= |f| && LineEnd(f, k) == e && ParseDims(f[k..e]) == Some((a, b))
    ensures DimsLine(f, k) == Some((a, b, e))
  {
  }

  /** After a dimensions line ending at e comes "255\n"; the pixel data starts after it. */
  lemma MaxvalLine(f: seq<Byte>, e: nat)
    requires e + 5 <= |f| && f[e..e + 5] == [NEWLINE] + MAXVAL_LINE
    ensures PixelsStart(f, e) == e + 5
  {
    assert f[e + 1] == 50 && f[e + 2] == 53 && f[e + 3] == 53 && f[e + 4] == NEWLINE by {
      assert f[e..e + 5][1] == f[e + 1];
      assert f[e..e + 5][2] == f[e + 2];
      assert f[e..e + 5][3] == f[e + 3];
      assert f[e..e + 5][4] == f[e + 4];
    }
    LineEndAt(f, e + 1, e + 4);
  }

  /** Reading a written image gives the image back, for every image of
      well-sized planes whose samples are bytes. */
  lemma DecodeEncode(p: Pixmap)
    requires WellSized(p) && EightBit(p)
    ensures Decode(Encode(p)) == Ok(p)
  {
    var H := HeaderText(p.ncols, p.nrows);
    var P := Payload(p.r, p.g, p.b);
    HeaderOfText(p.ncols, p.nrows, P);
    PayloadOfBytes(p);
    SamplesOfPayload(H, P, p.r, p.g, p.b);
  }

  /** For samples that are bytes, the payload holds them unchanged. */
  lemma PayloadOfBytes(p: Pixmap)
    requires WellSized(p) && EightBit(p)
    ensures |Payload(p.r, p.g, p.b)| == 3 * |p.r|
    ensures forall i :: 0 <= i < |p.r| ==>
      && Payload(p.r, p.g, p.b)[3 * i] == p.r[i]
      && Payload(p.r, p.g, p.b)[3 * i + 1] == p.g[i]
      && Payload(p.r, p.g, p.b)[3 * i + 2] == p.b[i]
  {
    PayloadAt(p.r, p.g, p.b);
  }

  /** After the header, every channel of every pixel is read back from the pixel bytes. */
  lemma SamplesOfPayload(H: seq<Byte>, P: seq<Byte>, r: seq<int>, g: seq<int>, b: seq<int>)
    requires |r| == |g| == |b| && |P| == 3 * |r|
    requires forall i :: 0 <= i < |r| ==> P[3 * i] == r[i] && P[3 * i + 1] == g[i] && P[3 * i + 2] == b[i]
    ensures Samples(H + P, |H|, |r|, 0) == r
    ensures Samples(H + P, |H|, |r|, 1) == g
    ensures Samples(H + P, |H|, |r|, 2) == b
  {
    var f := H + P;
    forall i | 0 <= i < |r|
      ensures ByteAt(f, |H| + 3 * i) == r[i]
      ensures ByteAt(f, |H| + 3 * i + 1) == g[i]
      ensures ByteAt(f, |H| + 3 * i + 2) == b[i]
    {
      assert f[|H| + 3 * i] == P[3 * i];
      assert f[|H| + 3 * i + 1] == P[3 * i + 1];
      assert f[|H| + 3 * i + 2] == P[3 * i + 2];
    }
  }

  // ---------------------------------------------------------------------------
  // The imperative operations

  /** The pixmap a valid colour image holds. */
  function Contents(cimg: CImage): (p: Pixmap)
    requires cimg.Valid()
    reads cimg, cimg.C0, cimg.C1, cimg.C2, cimg.C0.data, cimg.C1.data, cimg.C2.data
    ensures WellSized(p)
  {
    Pixmap(cimg.C0.ncols, cimg.C0.nrows, cimg.C0.data[..], cimg.C1.data[..], cimg.C2.data[..])
  }

  /** CImage::Write: the header, then the three samples of every pixel in order. */
  method Write(cimg: CImage) returns (file: seq<Byte>)
    requires cimg.Valid()
    ensures file == Encode(Contents(cimg))
  {
    var ncols, nrows := cimg.C0.ncols, cimg.C0.nrows;
    file := HeaderText(ncols, nrows);
    ghost var H := file;
    var n := ncols * nrows;
    ghost var R, G, B := cimg.C0.data[..], cimg.C1.data[..], cimg.C2.data[..];
    for i := 0 to n
      invariant file == H + Payload(R[..i], G[..i], B[..i])
    {
      file := file + [cimg.C0.data[i] % 256, cimg.C1.data[i] % 256, cimg.C2.data[i] % 256];
      assert R[..i + 1][..i] == R[..i] && G[..i + 1][..i] == G[..i] && B[..i + 1][..i] == B[..i];
    }
    assert R[..n] == R && G[..n] == G && B[..n] == B;
  }

  /** CImage::Read of a P6 file: the header is parsed, a colour image of the
      announced size is created and filled with fgetc, three bytes per pixel.
      A file that is not P6 is refused. */
  method Read(file: seq<Byte>) returns (r: Result<CImage>)
    ensures r.Err? <==> Decode(file).Err?
    ensures r.Err? ==> r.error == Decode(file).error
    ensures r.Ok? ==> fresh(r.value) && r.value.Valid() && Contents(r.value) == Decode(file).value
    ensures r.Ok? ==> fresh(r.value.C0.data) && fresh(r.value.C1.data) && fresh(r.value.C2.data)
  {
    var hdr := ParseHeader(file);
    if hdr.Err? {
      r := Err(hdr.error);
    } else {
      var h := hdr.value;
      var cimg := new CImage.Create(h.ncols, h.nrows);
      ReadPixels(cimg, file, h.start);
      r := Ok(cimg);
    }
  }

  /** The pixel loop of Read: sample i of each plane takes the next byte of
      the file (or EOF), red, green and blue in turn. */
  method ReadPixels(cimg: CImage, file: seq<Byte>, start: nat)
    requires cimg.Valid()
    modifies cimg.C0.data, cimg.C1.data, cimg.C2.data
    ensures cimg.C0.data[..] == Samples(file, start, cimg.C0.n, 0)
    ensures cimg.C1.data[..] == Samples(file, start, cimg.C0.n, 1)
    ensures cimg.C2.data[..] == Samples(file, start, cimg.C0.n, 2)
  {
    var c0, c1, c2 := cimg.C0.data, cimg.C1.data, cimg.C2.data;
    var pos := start;
    for i := 0 to cimg.C0.n
      modifies c0, c1, c2
      invariant pos == start + 3 * i
      invariant forall k :: 0 <= k < i ==>
        c0[k] == ByteAt(file, start + 3 * k) && c1[k] == ByteAt(file, start + 3 * k + 1)
        && c2[k] == ByteAt(file, start + 3 * k + 2)
    {
      c0[i] := ByteAt(file, pos);
      c1[i] := ByteAt(file, pos + 1);
      c2[i] := ByteAt(file, pos + 2);
      pos := pos + 3;
    }
  }
}
