/**
 * `NoiseMap::new`: a width x height grid of heights, each the sum of
 * `octaves` layers of coherent noise, optionally pushed up in the middle and
 * down at the edges ("island" reshape) and clamped to [0, 1]. The grid is
 * filled row by row, the running extrema are updated cell by cell, and the
 * rows are flattened into one row-major sequence.
 *
 * The noise source (`noise.get` of the `Perlin::new()`
 * generator (the result of `set_seed` is discarded)) is the
 * parameter `noise`, and the platform square root is the parameter `sqrt`.
 */
module MapGenerator {
  import opened MathHelpers
  import opened Extrema
  import opened Flatten

  /** Rust's `u8`, the type of the octave count. */
  newtype u8 = n: int | 0 <= n < 256

  /** The parameters of one generation run. */
  datatype NoiseConfig = NoiseConfig(
    width: nat,
    height: nat,
    scale: real,
    octaves: u8,
    lacunarity: real,
    persistence: real,
    reshape: bool)

  /** The generated map: the parameters it was built from, the tracked
      extrema and the flattened grid (the field `map` of the source). The getters of the source are the
      field reads of this value. */
  datatype NoiseMap = NoiseMap(
    width: nat,
    height: nat,
    scale: real,
    octaves: u8,
    lacunarity: real,
    persistence: real,
    maxValue: real,
    minValue: real,
    values: seq<real>)

  /** Octave `i` at grid point (x, y): the noise sampled at frequency
      lacunarity^i, weighted by persistence^i. */
  function Octave(noise: (real, real) -> real, cfg: NoiseConfig, x: nat, y: nat, i: nat): real
    requires cfg.scale != 0.0
  {
    noise(Sample(cfg, x, i), Sample(cfg, y, i)) * Pow(cfg.persistence, i)
  }

  /** The coordinate at which octave `i` samples grid coordinate `c`. */
  function Sample(cfg: NoiseConfig, c: nat, i: nat): real
    requires cfg.scale != 0.0
  {
    c as real / cfg.scale * Pow(cfg.lacunarity, i)
  }

  /** The first `n` octaves at (x, y), added up in octave order. */
  function OctaveSum(noise: (real, real) -> real, cfg: NoiseConfig, x: nat, y: nat, n: nat): real
    requires cfg.scale != 0.0
  {
    if n == 0 then 0.0 else OctaveSum(noise, cfg, x, y, n - 1) + Octave(noise, cfg, x, y, n - 1)
  }

  /** The total amplitude of `n` octaves, 1 + p + ... + p^(n-1). */
  function Amplitude(persistence: real, n: nat): real
  {
    if n == 0 then 0.0 else Amplitude(persistence, n - 1) + Pow(persistence, n - 1)
  }

  lemma {:induction false} PowNonNegative(b: real, n: nat)
    requires b >= 0.0
    ensures Pow(b, n) >= 0.0
  {
    if n > 0 {
      PowNonNegative(b, n - 1);
    }
  }

  /** One octave stays within its weight persistence^i. */
  lemma OctaveBounded(noise: (real, real) -> real, cfg: NoiseConfig, x: nat, y: nat, i: nat)
    requires cfg.scale != 0.0 && cfg.persistence >= 0.0
    requires forall sx, sy :: -1.0 <= noise(sx, sy) <= 1.0
    ensures -Pow(cfg.persistence, i) <= Octave(noise, cfg, x, y, i) <= Pow(cfg.persistence, i)
  {
    PowNonNegative(cfg.persistence, i);
    var v, w := noise(Sample(cfg, x, i), Sample(cfg, y, i)), Pow(cfg.persistence, i);
    WeightedBound(v, w);
    assert Octave(noise, cfg, x, y, i) == v * w;
  }

  lemma WeightedBound(v: real, w: real)
    requires -1.0 <= v <= 1.0 && w >= 0.0
    ensures -w <= v * w <= w
  {
  }

  /** With a noise source whose output stays in [-1, 1] and a non-negative
      persistence, the raw octave sum stays within the total amplitude. */
  lemma {:induction false} OctaveSumBounded(noise: (real, real) -> real, cfg: NoiseConfig, x: nat, y: nat, n: nat)
    requires cfg.scale != 0.0 && cfg.persistence >= 0.0
    requires forall sx, sy :: -1.0 <= noise(sx, sy) <= 1.0
    ensures -Amplitude(cfg.persistence, n) <= OctaveSum(noise, cfg, x, y, n) <= Amplitude(cfg.persistence, n)
  {
    if n > 0 {
      OctaveSumBounded(noise, cfg, x, y, n - 1);
      OctaveBounded(noise, cfg, x, y, n - 1);
    }
  }

  /** The centre of the grid, (width / 2, height / 2). */
  function Center(cfg: NoiseConfig): (real, real)
  {
    (cfg.width as real / 2.0, cfg.height as real / 2.0)
  }

  /** The distance from the corner (0, 0) to the centre. */
  function MaxDistanceFromCenter(sqrt: real -> real, cfg: NoiseConfig): real
  {
    EuclideanDistance(sqrt, (0.0, 0.0), Center(cfg))
  }

  /** The island falloff `-lerp(-1, 1, invlerp(0, maxDist, dist))`. */
  function Falloff(dist: real, maxDist: real): (d: real)
    requires maxDist != 0.0
    ensures -1.0 <= d <= 1.0
    ensures 0.0 < maxDist && dist <= 0.0 ==> d == 1.0
    ensures 0.0 < maxDist && dist >= maxDist ==> d == -1.0
  {
    -Lerp(-1.0, 1.0, InvLerp(0.0, maxDist, dist))
  }

  /** The falloff never grows as the distance from the centre grows. */
  lemma FalloffMonotone(d1: real, d2: real, maxDist: real)
    requires 0.0 < maxDist && d1 <= d2
    ensures Falloff(d2, maxDist) <= Falloff(d1, maxDist)
  {
    InvLerpMonotone(0.0, maxDist, d1, d2);
    var t1, t2 := InvLerp(0.0, maxDist, d1), InvLerp(0.0, maxDist, d2);
    assert Falloff(d1, maxDist) == 1.0 - 2.0 * t1;
    assert Falloff(d2, maxDist) == 1.0 - 2.0 * t2;
  }

  /** What the generator requires of its parameters: a non-zero scale, and
      a non-zero corner-to-centre distance when it reshapes a non-empty grid. */
  predicate ValidConfig(sqrt: real -> real, cfg: NoiseConfig)
  {
    cfg.scale != 0.0 &&
    (cfg.reshape && cfg.width > 0 && cfg.height > 0 ==> MaxDistanceFromCenter(sqrt, cfg) != 0.0)
  }

  /** The value stored for cell (x, y): the raw octave sum, or with reshape
      the sum plus the falloff, clamped to [0, 1]. */
  function CellValue(noise: (real, real) -> real, sqrt: real -> real, cfg: NoiseConfig, x: nat, y: nat): (v: real)
    requires ValidConfig(sqrt, cfg) && x < cfg.width && y < cfg.height
    ensures cfg.reshape ==> 0.0 <= v <= 1.0
    ensures !cfg.reshape ==> v == OctaveSum(noise, cfg, x, y, cfg.octaves as nat)
  {
    var raw := OctaveSum(noise, cfg, x, y, cfg.octaves as nat);
    if cfg.reshape then
      var d := Falloff(EuclideanDistance(sqrt, (x as real, y as real), Center(cfg)), MaxDistanceFromCenter(sqrt, cfg));
      Clamp(raw + d, 0.0, 1.0)
    else
      raw
  }

  /** With reshape, the corner (0, 0) is pushed down by the full falloff. */
  lemma ReshapeLowersCorner(noise: (real, real) -> real, sqrt: real -> real, cfg: NoiseConfig)
    requires ValidConfig(sqrt, cfg) && cfg.reshape && cfg.width > 0 && cfg.height > 0
    requires MaxDistanceFromCenter(sqrt, cfg) > 0.0
    ensures CellValue(noise, sqrt, cfg, 0, 0) == Clamp(OctaveSum(noise, cfg, 0, 0, cfg.octaves as nat) - 1.0, 0.0, 1.0)
  {
  }

  /** With reshape, a cell on the centre (even width and height, and a square
      root with sqrt(0) = 0) is pushed up by the full falloff. */
  lemma ReshapeRaisesCenter(noise: (real, real) -> real, sqrt: real -> real, cfg: NoiseConfig)
    requires ValidConfig(sqrt, cfg) && cfg.reshape && cfg.width > 0 && cfg.height > 0
    requires cfg.width % 2 == 0 && cfg.height % 2 == 0
    requires MaxDistanceFromCenter(sqrt, cfg) > 0.0 && sqrt(0.0) == 0.0
    ensures var cx, cy := cfg.width / 2, cfg.height / 2;
      CellValue(noise, sqrt, cfg, cx, cy) == Clamp(OctaveSum(noise, cfg, cx, cy, cfg.octaves as nat) + 1.0, 0.0, 1.0)
  {
    var cx, cy := cfg.width / 2, cfg.height / 2;
    assert (cx as real, cy as real) == Center(cfg);
  }

  /** Row `y` of the grid: the values of cells (0, y) .. (width - 1, y). */
  function Row(noise: (real, real) -> real, sqrt: real -> real, cfg: NoiseConfig, y: nat): (row: seq<real>)
    requires ValidConfig(sqrt, cfg) && y < cfg.height
    ensures |row| == cfg.width
    ensures forall x :: 0 <= x < cfg.width ==> row[x] == CellValue(noise, sqrt, cfg, x, y)
  {
    seq(cfg.width, x requires 0 <= x < cfg.width => CellValue(noise, sqrt, cfg, x, y))
  }

  /** The first `n` rows of the grid, top to bottom. */
  function Rows(noise: (real, real) -> real, sqrt: real -> real, cfg: NoiseConfig, n: nat): (rows: seq<seq<real>>)
    requires ValidConfig(sqrt, cfg) && n <= cfg.height
    ensures |rows| == n
  {
    if n == 0 then [] else Rows(noise, sqrt, cfg, n - 1) + [Row(noise, sqrt, cfg, n - 1)]
  }

  /** Row `j` of the first `n` rows is row `j` of the grid. */
  lemma {:induction false} RowsAt(noise: (real, real) -> real, sqrt: real -> real, cfg: NoiseConfig, n: nat, j: nat)
    requires ValidConfig(sqrt, cfg) && j < n <= cfg.height
    ensures Rows(noise, sqrt, cfg, n)[j] == Row(noise, sqrt, cfg, j)
  {
    if j < n - 1 {
      RowsAt(noise, sqrt, cfg, n - 1, j);
    }
  }

  /** The whole grid, flattened row after row (the `concat` of the rows). */
  function Grid(noise: (real, real) -> real, sqrt: real -> real, cfg: NoiseConfig): seq<real>
    requires ValidConfig(sqrt, cfg)
  {
    Concat(Rows(noise, sqrt, cfg, cfg.height))
  }

  /** Every row of the grid is `width` values long. */
  lemma RowsUniform(noise: (real, real) -> real, sqrt: real -> real, cfg: NoiseConfig)
    requires ValidConfig(sqrt, cfg)
    ensures forall j :: 0 <= j < cfg.height ==>
              Rows(noise, sqrt, cfg, cfg.height)[j] == Row(noise, sqrt, cfg, j)
    ensures forall j :: 0 <= j < cfg.height ==> |Rows(noise, sqrt, cfg, cfg.height)[j]| == cfg.width
  {
    forall j | 0 <= j < cfg.height
      ensures Rows(noise, sqrt, cfg, cfg.height)[j] == Row(noise, sqrt, cfg, j)
    {
      RowsAt(noise, sqrt, cfg, cfg.height, j);
    }
  }

  /** The flattened grid holds `width * height` values. */
  lemma GridLength(noise: (real, real) -> real, sqrt: real -> real, cfg: NoiseConfig)
    requires ValidConfig(sqrt, cfg)
    ensures |Grid(noise, sqrt, cfg)| == cfg.width * cfg.height
  {
    RowsUniform(noise, sqrt, cfg);
    ConcatLength(Rows(noise, sqrt, cfg, cfg.height), cfg.width);
    assert cfg.height * cfg.width == cfg.width * cfg.height;
  }

  /** Cell (x, y) of the grid sits at index `y * width + x` of the flattened grid. */
  lemma GridAt(noise: (real, real) -> real, sqrt: real -> real, cfg: NoiseConfig, x: nat, y: nat)
    requires ValidConfig(sqrt, cfg) && x < cfg.width && y < cfg.height
    ensures y * cfg.width + x < |Grid(noise, sqrt, cfg)|
    ensures Grid(noise, sqrt, cfg)[y * cfg.width + x] == CellValue(noise, sqrt, cfg, x, y)
  {
    var rows := Rows(noise, sqrt, cfg, cfg.height);
    RowsUniform(noise, sqrt, cfg);
    ConcatAt(rows, cfg.width, y, x);
    assert rows[y][x] == Row(noise, sqrt, cfg, y)[x];
  }

  /** With reshape, every value of the flattened grid lies in [0, 1]. */
  lemma GridWithinUnit(noise: (real, real) -> real, sqrt: real -> real, cfg: NoiseConfig)
    requires ValidConfig(sqrt, cfg) && cfg.reshape
    ensures forall k :: 0 <= k < |Grid(noise, sqrt, cfg)| ==> 0.0 <= Grid(noise, sqrt, cfg)[k] <= 1.0
  {
    var rows := Rows(noise, sqrt, cfg, cfg.height);
    RowsUniform(noise, sqrt, cfg);
    ConcatWithin(rows, 0.0, 1.0);
  }

  /** The body of the per-cell loop of `NoiseMap::new` up to the push: the
      octaves summed one by one, then the optional reshape. */
  method SampleCell(
    noise: (real, real) -> real,
    sqrt: real -> real,
    cfg: NoiseConfig,
    center: (real, real),
    maxDistanceFromCenter: real,
    x: nat,
    y: nat)
    returns (noiseVal: real)
    requires ValidConfig(sqrt, cfg) && x < cfg.width && y < cfg.height
    requires center == Center(cfg) && maxDistanceFromCenter == MaxDistanceFromCenter(sqrt, cfg)
    ensures noiseVal == CellValue(noise, sqrt, cfg, x, y)
    ensures cfg.reshape ==> 0.0 <= noiseVal <= 1.0
  {
    noiseVal := 0.0;
    for octaveIdx := 0 to cfg.octaves as nat
      invariant noiseVal == OctaveSum(noise, cfg, x, y, octaveIdx)
    {
      var sampleX := x as real / cfg.scale * Pow(cfg.lacunarity, octaveIdx);
      var sampleY := y as real / cfg.scale * Pow(cfg.lacunarity, octaveIdx);
      assert sampleX == Sample(cfg, x, octaveIdx) && sampleY == Sample(cfg, y, octaveIdx);
      noiseVal := noiseVal + noise(sampleX, sampleY) * Pow(cfg.persistence, octaveIdx);
    }

    if cfg.reshape {
      var distanceToMapCenter := EuclideanDistance(sqrt, (x as real, y as real), center);
      var d := InvLerp(0.0, maxDistanceFromCenter, distanceToMapCenter);
      d := -Lerp(-1.0, 1.0, d);
      noiseVal := Clamp(noiseVal + d, 0.0, 1.0);
    }
  }

  /** One pass of the `for x` loop of `NoiseMap::new`: row `y` filled cell
      by cell, each value passed through the running extrema as it is pushed. */
  method FillRow(
    noise: (real, real) -> real,
    sqrt: real -> real,
    cfg: NoiseConfig,
    center: (real, real),
    maxDistanceFromCenter: real,
    y: nat,
    maxValue: real,
    minValue: real)
    returns (row: seq<real>, maxValue': real, minValue': real)
    requires ValidConfig(sqrt, cfg) && y < cfg.height
    requires center == Center(cfg) && maxDistanceFromCenter == MaxDistanceFromCenter(sqrt, cfg)
    ensures row == Row(noise, sqrt, cfg, y)
    ensures Extrema(maxValue', minValue') == TrackAll(Extrema(maxValue, minValue), row)
  {
    row := [];
    maxValue', minValue' := maxValue, minValue;
    var x := 0;
    while x < cfg.width
      invariant 0 <= x <= cfg.width && row == Row(noise, sqrt, cfg, y)[..x]
      invariant Extrema(maxValue', minValue') == TrackAll(Extrema(maxValue, minValue), row)
    {
      var noiseVal := SampleCell(noise, sqrt, cfg, center, maxDistanceFromCenter, x, y);

      ghost var seen, tracked := row, Extrema(maxValue', minValue');
      row := row + [noiseVal];
      assert row == Row(noise, sqrt, cfg, y)[..x + 1];

      if noiseVal > maxValue' {
        maxValue' := noiseVal;
      } else if noiseVal < minValue' {
        minValue' := noiseVal;
      }
      assert Extrema(maxValue', minValue') == Track(tracked, noiseVal);
      TrackAllPush(Extrema(maxValue, minValue), seen, noiseVal);
      x := x + 1;
    }
    assert row == Row(noise, sqrt, cfg, y);
  }

  /** `NoiseMap::new`. */
  method New(
    width: nat,
    height: nat,
    scale: real,
    octaves: u8,
    lacunarity: real,
    persistence: real,
    reshape: bool,
    noise: (real, real) -> real,
    sqrt: real -> real)
    returns (m: NoiseMap)
    requires ValidConfig(sqrt, NoiseConfig(width, height, scale, octaves, lacunarity, persistence, reshape))
    ensures m.width == width && m.height == height && m.scale == scale && m.octaves == octaves
    ensures m.lacunarity == lacunarity && m.persistence == persistence
    ensures m.values == Grid(noise, sqrt, NoiseConfig(width, height, scale, octaves, lacunarity, persistence, reshape))
    ensures |m.values| == width * height
    ensures reshape ==> forall i :: 0 <= i < |m.values| ==> 0.0 <= m.values[i] <= 1.0
    ensures Extrema(m.maxValue, m.minValue) == TrackAll(Sentinels, m.values)
  {
    var cfg := NoiseConfig(width, height, scale, octaves, lacunarity, persistence, reshape);
    var center := (width as real / 2.0, height as real / 2.0);
    var maxDistanceFromCenter := EuclideanDistance(sqrt, (0.0, 0.0), center);

    var noiseMap: seq<seq<real>> := [];
    var maxValue, minValue := F64Min, F64Max;

    var y := 0;
    while y < height
      invariant 0 <= y <= height && noiseMap == Rows(noise, sqrt, cfg, y)
      invariant Extrema(maxValue, minValue) == TrackAll(Sentinels, Concat(noiseMap))
    {
      var row;
      row, maxValue, minValue := FillRow(noise, sqrt, cfg, center, maxDistanceFromCenter, y, maxValue, minValue);
      TrackAllAppend(Sentinels, Concat(noiseMap), row);
      ConcatPush(noiseMap, row);
      noiseMap := noiseMap + [row];
      y := y + 1;
    }

    GridLength(noise, sqrt, cfg);
    if reshape {
      GridWithinUnit(noise, sqrt, cfg);
    }
    var flat := Concat(noiseMap);
    m := NoiseMap(width, height, scale, octaves, lacunarity, persistence, maxValue, minValue, flat);
  }

  /** A one-cell island map: its only value raises the maximum, so the
      minimum is never compared and stays at `f64::MAX`. */
  method OneCellIsland(
    scale: real,
    octaves: u8,
    lacunarity: real,
    persistence: real,
    noise: (real, real) -> real,
    sqrt: real -> real)
    returns (m: NoiseMap)
    requires ValidConfig(sqrt, NoiseConfig(1, 1, scale, octaves, lacunarity, persistence, true))
    ensures |m.values| == 1 && 0.0 <= m.values[0] <= 1.0
    ensures m.maxValue == m.values[0]
    ensures m.minValue == F64Max
  {
    m := New(1, 1, scale, octaves, lacunarity, persistence, true, noise, sqrt);
    assert m.values == [m.values[0]];
    SingleValueKeepsMinSentinel(m.values[0]);
  }
}
