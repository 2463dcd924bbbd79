/** Packing of an (R, G, B) triple into one integer and back, as the colour
    helpers of the library do it: R in bits 16..23, G in bits 8..15, B in
    bits 0..7. Dafny's `/` and `%` are Euclidean, so dividing by a power of
    two and taking `% 256` is exactly an arithmetic right shift followed by
    a mask with 0xff on a two's-complement integer. */
module Color {

  /** Color::Triplet(r, g, b): each channel is masked to 8 bits before packing. */
  function Triplet(r: int, g: int, b: int): (c: int)
    ensures 0 <= c < 0x100_0000
  {
    (r % 256) * 0x1_0000 + (g % 256) * 0x100 + b % 256
  }

  /** Color::Channel0(c): (c >> 16) & 0xff. */
  function Channel0(c: int): (v: int)
    ensures 0 <= v < 256
  {
    (c / 0x1_0000) % 256
  }

  /** Color::Channel1(c): (c >> 8) & 0xff. */
  function Channel1(c: int): (v: int)
    ensures 0 <= v < 256
  {
    (c / 0x100) % 256
  }

  /** Color::Channel2(c): c & 0xff. */
  function Channel2(c: int): (v: int)
    ensures 0 <= v < 256
  {
    c % 256
  }

  /** Unpacking a packed triple gives back each channel, reduced to 8 bits. */
  lemma {:induction false} ChannelsOfTriplet(r: int, g: int, b: int)
    ensures Channel0(Triplet(r, g, b)) == r % 256
    ensures Channel1(Triplet(r, g, b)) == g % 256
    ensures Channel2(Triplet(r, g, b)) == b % 256
  {
    var r8, g8, b8 := r % 256, g % 256, b % 256;
    var low := g8 * 0x100 + b8;
    assert 0 <= low < 0x1_0000;
    assert Triplet(r, g, b) == r8 * 0x1_0000 + low;
    assert Triplet(r, g, b) / 0x1_0000 == r8;
    assert Triplet(r, g, b) / 0x100 == r8 * 0x100 + g8;
  }

  /** Two triples of 8-bit channels pack to the same integer only if they are equal. */
  lemma TripletInjective(r: int, g: int, b: int, r': int, g': int, b': int)
    requires 0 <= r < 256 && 0 <= g < 256 && 0 <= b < 256
    requires 0 <= r' < 256 && 0 <= g' < 256 && 0 <= b' < 256
    ensures Triplet(r, g, b) == Triplet(r', g', b') <==> r == r' && g == g' && b == b'
  {
    ChannelsOfTriplet(r, g, b);
    ChannelsOfTriplet(r', g', b');
  }
}
