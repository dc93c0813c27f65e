/**
 * Glyph rasterizer of the fireworks canvas: a character is drawn onto an
 * offscreen square bitmap and random pixels are drawn until enough of them
 * land on the character, each accepted pixel becoming one particle offset
 * from the centre of the square.
 *
 * The bitmap (what `fillText` then `getImageData` produce) is a parameter,
 * a sequence of RGBA bytes, and `Math.random()` is a finite stream of draws.
 */
module FireworksGlyph {

  /** One particle: an offset from the glyph's centre. */
  datatype Point = Point(x: real, y: real)

  /** The two `Math.random()` values one iteration of the sampling loop uses, for x then y. */
  datatype Draw = Draw(u: real, v: real)

  /** What one run of the sampler produced, and how many draws it consumed. */
  datatype Sampled = Sampled(points: seq<Point>, used: nat)

  predicate InUnit(d: Draw) {
    0.0 <= d.u < 1.0 && 0.0 <= d.v < 1.0
  }

  /** `Math.random()` returns values in [0, 1). */
  predicate AllInUnit(ds: seq<Draw>) {
    forall k :: 0 <= k < |ds| ==> InUnit(ds[k])
  }

  /** Side of the offscreen square: 200 on narrow canvases, 300 otherwise. */
  function GlyphSize(w: int): (size: nat)
    ensures size == 200 || size == 300
    ensures size == 200 <==> ParticleCount(w) == 55
  {
    if w < 400 then 200 else 300
  }

  /** Particles per glyph, set by `resize`: 55 on narrow canvases, 99 otherwise. */
  function ParticleCount(w: int): (n: nat)
    ensures n == 55 || n == 99
  {
    if w < 400 then 55 else 99
  }

  function Half(size: nat): real {
    size as real / 2.0
  }

  /** Byte index of the red channel of the pixel that holds (x, y). */
  function PixelOffset(size: nat, x: real, y: real): int {
    y.Floor * size * 4 + x.Floor * 4
  }

  /** A byte read off the end of the bitmap is `undefined`, which is falsy. */
  predicate Opaque(raster: seq<int>, offset: int) {
    0 <= offset < |raster| && raster[offset] != 0
  }

  /** The particle lies on a pixel the character covers. */
  predicate OnGlyph(raster: seq<int>, size: nat, p: Point) {
    Opaque(raster, PixelOffset(size, p.x + Half(size), p.y + Half(size)))
  }

  /** The particle lies in the square [-size/2, size/2) x [-size/2, size/2). */
  predicate InBox(p: Point, size: nat) {
    -Half(size) <= p.x < Half(size) && -Half(size) <= p.y < Half(size)
  }

  /** Whether a draw is accepted: the pixel under (size*u, size*v) is opaque. */
  predicate Hit(raster: seq<int>, size: nat, d: Draw) {
    Opaque(raster, PixelOffset(size, size as real * d.u, size as real * d.v))
  }

  /** The particle an accepted draw becomes. */
  function Centred(size: nat, d: Draw): Point {
    Point(size as real * d.u - Half(size), size as real * d.v - Half(size))
  }

  /**
   * Rejection sampling: walk the draws in order, keep the hits, and stop as
   * soon as `need` particles are kept or the draws run out.
   */
  function Sample(raster: seq<int>, size: nat, draws: seq<Draw>, need: nat): (r: Sampled)
    requires size > 0 && AllInUnit(draws)
    ensures |r.points| <= need && r.used <= |draws|
    ensures |r.points| < need ==> r.used == |draws|
    decreases |draws|
  {
    if need == 0 || draws == [] then Sampled([], 0)
    else if Hit(raster, size, draws[0]) then
      var rest := Sample(raster, size, draws[1..], need - 1);
      Sampled([Centred(size, draws[0])] + rest.points, rest.used + 1)
    else
      var rest := Sample(raster, size, draws[1..], need);
      Sampled(rest.points, rest.used + 1)
  }

  /** An accepted draw becomes a particle inside the square and on the glyph. */
  lemma CentredInBox(raster: seq<int>, size: nat, d: Draw)
    requires size > 0 && InUnit(d)
    ensures InBox(Centred(size, d), size)
    ensures Hit(raster, size, d) ==> OnGlyph(raster, size, Centred(size, d))
  {
    var s := size as real;
    ScaledBelow(s, d.u);
    ScaledBelow(s, d.v);
    assert Centred(size, d).x + Half(size) == s * d.u;
    assert Centred(size, d).y + Half(size) == s * d.v;
  }

  /** A draw in [0, 1) scaled by a positive side lands in [0, side). */
  lemma ScaledBelow(s: real, u: real)
    requires s > 0.0 && 0.0 <= u < 1.0
    ensures 0.0 <= s * u < s
  {
    assert s - s * u == s * (1.0 - u);
    assert s * (1.0 - u) > 0.0;
  }

  /** Every sampled particle lies inside the square and on the character. */
  lemma {:induction false} SampleOnGlyph(raster: seq<int>, size: nat, draws: seq<Draw>, need: nat)
    requires size > 0 && AllInUnit(draws)
    ensures forall p :: p in Sample(raster, size, draws, need).points ==> InBox(p, size) && OnGlyph(raster, size, p)
    decreases |draws|
  {
    if need != 0 && draws != [] {
      if Hit(raster, size, draws[0]) {
        CentredInBox(raster, size, draws[0]);
        SampleOnGlyph(raster, size, draws[1..], need - 1);
      } else {
        SampleOnGlyph(raster, size, draws[1..], need);
      }
    }
  }

  /** Number of draws in the stream that land on the character. */
  function CountHits(raster: seq<int>, size: nat, draws: seq<Draw>): nat {
    if draws == [] then 0
    else (if Hit(raster, size, draws[0]) then 1 else 0) + CountHits(raster, size, draws[1..])
  }

  /** With at least `need` hits in the stream, the sampler returns exactly `need` particles. */
  lemma {:induction false} SampleIsFull(raster: seq<int>, size: nat, draws: seq<Draw>, need: nat)
    requires size > 0 && AllInUnit(draws)
    requires CountHits(raster, size, draws) >= need
    ensures |Sample(raster, size, draws, need).points| == need
    decreases |draws|
  {
    if need != 0 && draws != [] {
      if Hit(raster, size, draws[0]) {
        SampleIsFull(raster, size, draws[1..], need - 1);
      } else {
        SampleIsFull(raster, size, draws[1..], need);
      }
    }
  }

  /** The pixel under any point of the square is inside a bitmap of size*size RGBA pixels. */
  lemma PixelOffsetInRaster(size: nat, x: real, y: real)
    requires 0.0 <= x < size as real && 0.0 <= y < size as real
    ensures 0 <= PixelOffset(size, x, y) < size * size * 4
    ensures PixelOffset(size, x, y) % 4 == 0
  {
    var fx, fy := x.Floor, y.Floor;
    assert 0 <= fx < size && 0 <= fy < size;
    assert fy * size <= (size - 1) * size by {
      assert fy <= size - 1;
    }
    assert PixelOffset(size, x, y) == (fy * size + fx) * 4;
    assert fy * size + fx < size * size;
  }

  /** What the sampler still adds to `points` after `used` draws, with the draws `left`. */
  function Completed(raster: seq<int>, size: nat, left: seq<Draw>, need: nat, points: seq<Point>, used: nat): Sampled
    requires size > 0 && AllInUnit(left) && |points| <= need
  {
    var rest := Sample(raster, size, left, need - |points|);
    Sampled(points + rest.points, used + rest.used)
  }

  /** One iteration of the sampling loop: the draw `left[0]` is consumed, and kept when it hits. */
  lemma SampleStep(raster: seq<int>, size: nat, left: seq<Draw>, need: nat, points: seq<Point>, used: nat)
    requires size > 0 && AllInUnit(left) && left != [] && |points| < need
    ensures AllInUnit(left[1..])
    ensures Completed(raster, size, left, need, points, used)
      == Completed(raster, size, left[1..], need,
                   if Hit(raster, size, left[0]) then points + [Centred(size, left[0])] else points, used + 1)
  {
    if Hit(raster, size, left[0]) {
      var rest := Sample(raster, size, left[1..], need - |points| - 1);
      assert points + ([Centred(size, left[0])] + rest.points) == (points + [Centred(size, left[0])]) + rest.points;
    }
  }

  /**
   * The sampling loop of `makeChar`: draws are consumed in order until the
   * glyph holds `need` particles or the stream is exhausted.
   */
  method MakeChar(raster: seq<int>, size: nat, draws: seq<Draw>, need: nat) returns (points: seq<Point>, used: nat)
    requires size > 0 && AllInUnit(draws)
    ensures Sampled(points, used) == Sample(raster, size, draws, need)
  {
    points, used := [], 0;
    var left := draws;
    while |points| < need && left != []
      invariant |points| <= need && AllInUnit(left)
      invariant Sample(raster, size, draws, need) == Completed(raster, size, left, need, points, used)
      decreases |left|
    {
      var d := left[0];
      SampleStep(raster, size, left, need, points, used);
      if Hit(raster, size, d) {
        points := points + [Centred(size, d)];
      }
      used := used + 1;
      left := left[1..];
    }
    assert points + [] == points;
  }
}
