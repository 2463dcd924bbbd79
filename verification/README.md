# gft colour images, modelled in Dafny

This project models the colour-image module of the gft library
(`gft/src/gft_cimage.cpp`). A colour image (`sCImage`) is three integer
planes `C[0]`, `C[1]` and `C[2]` (red, green, blue). The planes always have the
same size, and samples are stored row-major at offset `x + y * ncols`.
The model covers:

- the image's lifecycle (Create, Destroy);
- the three ways of painting a label image in colour (a random colour per
  label, random channel tables, the average colour of each label region);
- the minimum bounding box of the non-background pixels, and the sub-image
  of a window;
- the range-rescaling clone of a single plane, and the lightness projection;
- the binary PPM ("P6") writer and reader.

Modules:

- `Color` packs and unpacks the 24-bit colour triplet.
- `Planes` holds the single-channel plane (`Image32`): its size, its
  sample array, offset arithmetic, the maximum sample, and the quotient
  truncated toward zero that C's `/` computes.
- `ColorImage` holds the `CImage` class with Create and Destroy, the
  range clone and Lightness.
- `Colorize` holds RandomColorize, ColorizeLabel and
  ColorizeByAverageColor, each split into its passes.
- `Geometry` holds MBB and SubImage.
- `Codec` holds Write and Read. They are imperative methods over an image
  and a file, where a file is a sequence of bytes. Each is specified by a
  pure `Encode` or `Decode`, and the two are tied by a round-trip lemma.

Several things are parameters of the model:

- **Random draws.** `RandomColor` and `RandomInteger` are the sequence
  `draws`. RandomColorize gives label `i >= 1` the colour `draws[i-1]`.
  ColorizeLabel gives label `l` the channels `draws[3l]`, `draws[3l+1]`
  and `draws[3l+2]`.
- **Files.** A file is its byte sequence. `fgetc` past the end of the file
  yields -1. `fputc` writes a sample modulo 256.

## Model

| member | source | states |
|---|---|---|
| ColorImage.CImage.Create | gft/src/gft_cimage.cpp:10-18 | three fresh, distinct planes of the requested width and height, every sample 0 |
| ColorImage.Destroy | gft/src/gft_cimage.cpp:30-43 | a null handle is left unchanged; otherwise the three plane pointers are cleared and the caller's handle becomes null |
| Planes.GetMaxVal | gft/src/gft_cimage.cpp:53 | the result bounds every sample of the plane and is attained by one of them |
| Colorize.RandomColorize | gft/src/gft_cimage.cpp:45-68 | a fresh image of the label image's size; each pixel's channels are those of the colour drawn for its label, with label 0 black |
| Colorize.RandomColorizeBackgroundBlack | gft/src/gft_cimage.cpp:55 | label 0 is painted with all three channels 0, whatever the draws |
| Colorize.PaintByColormap | gft/src/gft_cimage.cpp:59-65 | every pixel receives channels 0, 1 and 2 of the colormap entry of its label |
| Colorize.DrawTables | gft/src/gft_cimage.cpp:313-318 | three tables of Lmax+1 entries; entry l of R, G and B is the l-th triple of draws |
| Colorize.PaintByLabel | gft/src/gft_cimage.cpp:320-326 | every pixel of each plane takes the table entry of its label (R, G or B) |
| Colorize.ColorizeLabel | gft/src/gft_cimage.cpp:302-331 | a fresh image of the label image's size whose pixel p is (draws[3L], draws[3L+1], draws[3L+2]) for its label L |
| Colorize.AccumulateByLabel | gft/src/gft_cimage.cpp:79-85 | per label, the sum of each channel over the pixels with that label and the number of such pixels |
| Colorize.AveragesByLabel | gft/src/gft_cimage.cpp:87-97 | the average of label l >= 1 with a non-zero count is the sum divided by the count, truncated toward zero; label 0 and empty labels average 0 |
| Colorize.ColorizeByAverageColor | gft/src/gft_cimage.cpp:70-108 | a fresh image of the label image's size; a pixel whose label L >= 1 holds, per channel, the mean of the original image over the pixels labelled L, truncated toward zero; a pixel labelled 0 is (0, 0, 0) whatever its colour |
| Colorize.LabelSumStep | gft/src/gft_cimage.cpp:80-84 | adding one pixel to the scanned prefix adds its sample to its own label's sum and count and changes no other label |
| Colorize.LabelCountPositive | gft/src/gft_cimage.cpp:92 | a label that some pixel carries has a positive count, so its mean is a real division |
| Colorize.LabelSumBounds | gft/src/gft_cimage.cpp:79-85 | when every sample lies in [lo, hi], a label's sum lies between count*lo and count*hi |
| Colorize.LabelMeanWithin | gft/src/gft_cimage.cpp:91-97 | a label's mean lies within the bounds of the samples it averages |
| Colorize.LabelMeanIn8Bits | gft/src/gft_cimage.cpp:91-97 | the mean of 8-bit samples is an 8-bit value |
| ColorImage.RangeSampleDegenerate | gft/src/gft_cimage.cpp:237 | when Imin equals Imax, every sample is left at 0 |
| ColorImage.RangeSampleSentinels | gft/src/gft_cimage.cpp:239-253 | INT_MIN maps to 0 and INT_MAX maps to 255 in any non-degenerate range |
| ColorImage.RangeSampleIn8Bits | gft/src/gft_cimage.cpp:243-244 | a sample inside an increasing range maps into 0..255, with Imin mapped to 0 and Imax mapped to 255 |
| ColorImage.CloneRange | gft/src/gft_cimage.cpp:229-265 | a fresh colour image of the plane's size, with fresh sample arrays, whose first plane is the rescaled plane and whose other two planes are equal copies of it |
| ColorImage.LightnessBetween | gft/src/gft_cimage.cpp:363-367 | the lightness lies between the pixel's smallest and largest channel, and a grey pixel keeps its value |
| ColorImage.Lightness | gft/src/gft_cimage.cpp:355-370 | a fresh plane, with a fresh sample array, of the image's size whose pixel p is the rounded midpoint of its largest and smallest channel |
| Geometry.MBB | gft/src/gft_cimage.cpp:394-425 | every non-background pixel lies inside [l, h]; when one exists, each of the four bounds is attained by a non-background pixel; otherwise l is (ncols-1, nrows-1) and h is (0, 0) |
| Geometry.ScanRow | gft/src/gft_cimage.cpp:405-423 | after row i, [l, h] is exactly the bounding box of the foreground in rows 0..i: each such pixel lies inside it and each bound is attained by one of them; with none yet, l and h keep their initial values |
| Geometry.VisitPixel | gft/src/gft_cimage.cpp:407-422 | one pixel widens the box to include it if it is not background, and otherwise changes nothing |
| Geometry.VisitForeground | gft/src/gft_cimage.cpp:412-422 | once the box is widened to a foreground pixel, it is again the exact bounding box of the visited foreground, with that pixel as the witness of every bound it lies on |
| Geometry.VisitBackground | gft/src/gft_cimage.cpp:412 | a background pixel keeps the invariant with the box unchanged |
| Geometry.SubImage | gft/src/gft_cimage.cpp:427-450 | null exactly when the window is not inside the image or is inverted; otherwise a fresh image of the window's size whose pixel (x, y) is the source pixel (l.x+x, l.y+y) in every plane |
| Geometry.CopyWindow | gft/src/gft_cimage.cpp:436-447 | the window is copied row by row, so sub-image pixel (x, y) equals source pixel (l.x+x, l.y+y) in all three planes |
| Codec.Write | gft/src/gft_cimage.cpp:173-190 | the file written is the encoding of the image: the header, then red, green and blue of every pixel in order |
| Codec.PayloadAt | gft/src/gft_cimage.cpp:183-188 | byte 3i+c of the pixel data is channel c of pixel i, modulo 256, and the data is 3n bytes long |
| Codec.DigitsValueOfDecimal | gft/src/gft_cimage.cpp:180 | the decimal text printed for a number reads back as that number |
| Codec.ParseHeader | gft/src/gft_cimage.cpp:142-154 | the file is refused as not P6 exactly when its first token, up to its first 0 byte (where strcmp stops), is not "P6"; an accepted header's pixel data starts inside the file |
| Codec.MagicEndsAtNul | gft/src/gft_cimage.cpp:142-143 | a file that starts with "P6" and a 0 byte is not refused as not P6, since strcmp stops at the 0 byte that %s keeps in the token |
| Codec.HeaderOfText | gft/src/gft_cimage.cpp:179-181 | the header Write prints parses back to its width and height, with the pixel data starting right after it |
| Codec.Decode | gft/src/gft_cimage.cpp:142-163 | a header error is reported as such; otherwise the three planes have width*height samples, each a byte or -1 (EOF) |
| Codec.Read | gft/src/gft_cimage.cpp:111-171 | fails exactly when Decode fails, with the same error; otherwise it returns a fresh valid image, with fresh sample arrays, whose contents are the decoded file |
| Codec.ReadPixels | gft/src/gft_cimage.cpp:155-161 | sample i of plane c is byte start+3i+c of the file, or -1 past its end |
| Codec.DecodeEncode | gft/src/gft_cimage.cpp:142-188 | reading the file that Write produces gives the image back, for every image whose samples are bytes |
| Color.ChannelsOfTriplet | gft/src/gft_cimage.cpp:62-64 | unpacking a packed triplet gives back each channel modulo 256 |
| Color.TripletInjective | gft/src/gft_cimage.cpp:411-412 | two pixels of 8-bit channels pack to the same colour exactly when their channels are equal |

## Left out

- `gft/src/gft_color.cpp` is not part of this model. So `Triplet`,
  `Channel0..2` and `RandomColor` are not visible. They are modelled as
  the usual 24-bit packing (`r<<16 | g<<8 | b`, each channel masked to 8
  bits). Random draws are parameters.
- Image32's own code (`Create`, `Clone`, `GetMaxVal`, `Destroy`) is not
  part of this model. Each is modelled by what the colour-image code
  relies on: a zeroed plane, an equal copy, the maximum sample, and
  release.
- Create's overloads `Create(sCImage*)` and `Create(sImage32*)` (lines
  20-28) are not modelled. They only forward their argument's dimensions
  to `Create(ncols, nrows)`, which is modelled. In the source,
  RandomColorize (line 52) and ColorizeByAverageColor (line 99) call
  `Create(sImage32*)`; the model's colorize methods call
  `Create(ncols, nrows)` with the label image's dimensions in its place.
- ColorImage.CloneRange is idealised. It computes
  `255*(v-Imin)/(Imax-Imin)` as the exact rational truncated toward zero,
  while the source uses single-precision floating point. For large
  operands, rounding in `float` can differ from the exact quotient, and
  `img->data[i] - Imin` can overflow `int`. A descending range
  (`Imin > Imax`) is modelled by the same formula, without a bound lemma.
- Read's `.pgm` path (lines 122-134) is not modelled. For a file name
  ending in "pgm", Read loads a grey image with `Image32::Read` and copies
  it into all three planes. `Image32::Read` is not part of this model.
- A file whose magic token is not "P6" makes Read print a message and
  `exit(-1)` (lines 164-168). The model returns the `NotP6` error instead.
- Failure of `fopen` and of allocation (`calloc`, `Error`) is not
  modelled.
- Write opens its file in text mode (`"w"`, line 178), while Read opens it
  in binary mode (`"rb"`). The model treats both as the same byte
  sequence. So Codec.DecodeEncode holds only on platforms where text mode
  writes bytes unchanged, such as POSIX systems.
- Codec.ParseHeader reads `%d` as unsigned digits. The following are not
  modelled:
  - a sign;
  - `NCFgets`' handling of comment lines and its 255-character line limit;
  - the 10-character `type` buffer;
  - integer overflow in `sscanf`.
- When neither the dimensions line nor its retry holds two numbers, the
  source goes on with uninitialised dimensions. The model reports
  `BadDimensions` instead. The maximum-value line is skipped without
  being checked, as in the source.
- Colorize.AccumulateByLabel uses unbounded sums. The source's `long`
  sums and `int` counts could overflow for huge images.
- Integer overflow in general is not modelled: `ncols*nrows`, offsets
  and samples are unbounded integers. Every method that reads a label
  requires it to be non-negative and within the table, as the source
  silently assumes.
- Colorize.IsLabelImage requires a non-empty label image, so RandomColorize,
  ColorizeLabel, ColorizeByAverageColor and Planes.GetMaxVal do not cover
  an image with no pixels. On such an image the source's behaviour depends
  on `Image32::GetMaxVal`, which is not part of this model.
- The `ROUND` macro is defined outside `gft_cimage.cpp` and is not part of
  this model. ColorImage.RoundHalf assumes it rounds half-way values away
  from zero. Like `Triplet` and `Channel0..2`, this is an assumption about
  code that is not visible here.
- Freeing memory (`free`, `FreeIntArray`, `Image32::Destroy`) is
  modelled only as clearing the pointers, since Dafny has no
  deallocation.
- The other operations in the file are outside the modelled core:
  - RGB2Lab, Luminosity and the other colour-space conversions;
  - Scale, AddFrame, RemFrame and the Draw operations;
  - the Copy and Set operations;
  - the Clone overloads other than the range clone.

## Notes on behaviour

- ColorizeByAverageColor never averages label 0. Its loop starts at label
  1, so pixels labelled 0 are painted black, whatever their colour.
- The range clone truncates toward zero; it does not round.
- MBB on an image with no foreground pixel returns the initial corners:
  `l = (ncols-1, nrows-1)` and `h = (0, 0)`. For an image of at least 2
  pixels in width or height, this box is inverted. For a 1x1 image it is
  the single pixel. When the width or the height is 0, the corners still
  take these initial values: for example, l = (-1, -1) and h = (0, 0) for
  a 0x0 image.
- Read retries the dimensions line once: if the first line after the
  magic number does not hold two numbers, the next line is read in its
  place.
