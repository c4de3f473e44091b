/**
 * The rendering loop of the front end: every value of the flattened map is
 * normalised between the map's tracked minimum and maximum, placed at its
 * (row, column) position, and painted either in gray or in the colour of its
 * elevation band.
 */
module Display {
  import opened MathHelpers
  import opened ElevationColors
  import opened Flatten

  /** `CELL_SIZE`: the side of the square painted for one cell. */
  const CellSize: nat := 1

  /** `clamp(v)` with the default bounds `min = 0`, `max = 1`. */
  function ClampUnit(v: real): (r: real)
    ensures 0.0 <= r <= 1.0
    ensures 0.0 <= v <= 1.0 ==> r == v
    ensures v < 0.0 ==> r == 0.0
    ensures v > 1.0 ==> r == 1.0
  {
    Clamp(v, 0.0, 1.0)
  }

  /** The page's `invlerp(a, b, v) = clamp((v - a) / (b - a))` in double
      arithmetic. When `a == b` the divisor is +0: the quotient is NaN for
      `v == a`, +Infinity (clamped to 1) above and -Infinity (clamped to 0)
      below. */
  function PageInvLerp(a: real, b: real, v: real): (r: Amount)
    ensures a != b ==> r == Num(InvLerp(a, b, v))
    ensures r.NaN? <==> a == b && v == a
    ensures r.Num? ==> 0.0 <= r.value <= 1.0
    ensures a == b && v > a ==> r == Num(1.0)
    ensures a == b && v < a ==> r == Num(0.0)
  {
    if a != b then Num(ClampUnit((v - a) / (b - a)))
    else if v == a then NaN
    else if v > a then Num(1.0)
    else Num(0.0)
  }

  /** `getCoord(idx)`: the (row, column) of index `idx` in a row-major grid
      `width` cells wide. */
  function GetCoord(idx: nat, width: nat): (rc: (nat, nat))
    requires width > 0
    ensures rc.0 * width + rc.1 == idx
    ensures rc.1 < width
  {
    (idx / width, idx % width)
  }

  /** `getCoord` inverts the layout of the generator: index
      `y * width + x` is row `y`, column `x`. */
  lemma GetCoordOfCell(x: nat, y: nat, width: nat)
    requires x < width
    ensures GetCoord(y * width + x, width) == (y, x)
  {
    var rc := GetCoord(y * width + x, width);
    RowMajorUnique(rc.0, rc.1, y, x, width);
  }

  /** An index inside a `width * height` grid has its row inside the grid. */
  lemma GetCoordInGrid(idx: nat, width: nat, height: nat)
    requires idx < width * height
    ensures width > 0
    ensures GetCoord(idx, width).0 < height
  {
    var rc := GetCoord(idx, width);
    if rc.0 >= height {
      MulMonotone(height, rc.0, width);
      assert false;
    }
  }

  /** `lerp(0, 255, amount)`: the gray level of a cell. */
  function GrayLevel(amount: Amount): (g: Amount)
    ensures g.NaN? <==> amount.NaN?
    ensures amount.Num? && 0.0 <= amount.value <= 1.0 ==> 0.0 <= g.value <= 255.0
    ensures amount == Num(0.0) ==> g == Num(0.0)
    ensures amount == Num(1.0) ==> g == Num(255.0)
  {
    match amount
    case NaN => NaN
    case Num(a) => Num(Lerp(0.0, 255.0, a))
  }

  /** Brighter cells are never painted darker. */
  lemma GrayLevelMonotone(a1: real, a2: real)
    requires a1 <= a2
    ensures GrayLevel(Num(a1)).value <= GrayLevel(Num(a2)).value
  {
    assert GrayLevel(Num(a2)).value - GrayLevel(Num(a1)).value == 255.0 * (a2 - a1);
  }

  /** The `fillStyle` of a cell. */
  datatype Fill = Gray(level: Amount) | Color(rgb: Rgb)

  /** One `fillRect` call: the top-left corner and the fill. */
  datatype Pixel = Pixel(left: nat, top: nat, fill: Fill)

  /** The fill of a cell of normalised height `amount`. */
  function CellFill(colors: seq<ElevationColor>, grayscale: bool, amount: Amount): Fill
    requires |colors| > 0
  {
    if grayscale then Gray(GrayLevel(amount))
    else Color(SelectColor(colors, amount).value.color)
  }

  /** What the page paints for value number `idx` of the map. */
  function PixelAt(noise: seq<real>, width: nat, minValue: real, maxValue: real,
                   grayscale: bool, colors: seq<ElevationColor>, idx: nat): Pixel
    requires idx < |noise| && width > 0 && |colors| > 0
  {
    var rc := GetCoord(idx, width);
    Pixel(rc.1 * CellSize, rc.0 * CellSize,
          CellFill(colors, grayscale, PageInvLerp(minValue, maxValue, noise[idx])))
  }

  /** `render`: one `fillRect` per value, in index order. */
  method Render(noise: seq<real>, width: nat, height: nat, minValue: real, maxValue: real,
                grayscale: bool, colors: array<ElevationColor>)
    returns (pixels: seq<Pixel>)
    requires |noise| == width * height && colors.Length > 0
    ensures |pixels| == |noise|
    ensures forall idx :: 0 <= idx < |noise| ==>
              width > 0 && pixels[idx] == PixelAt(noise, width, minValue, maxValue, grayscale, colors[..], idx)
  {
    pixels := [];
    for idx := 0 to |noise|
      invariant |pixels| == idx
      invariant forall i :: 0 <= i < idx ==>
                  width > 0 && pixels[i] == PixelAt(noise, width, minValue, maxValue, grayscale, colors[..], i)
    {
      GetCoordInGrid(idx, width, height);
      var rc := GetCoord(idx, width);
      var y, x := rc.0, rc.1;
      var amount := PageInvLerp(minValue, maxValue, noise[idx]);
      var fill;
      if grayscale {
        fill := Gray(GrayLevel(amount));
      } else {
        var cellColor := CellColor(colors, amount);
        fill := Color(cellColor.value.color);
      }
      pixels := pixels + [Pixel(x * CellSize, y * CellSize, fill)];
    }
  }

  /** Every painted square lies on the `width x height` canvas. */
  lemma PixelOnCanvas(noise: seq<real>, width: nat, height: nat, minValue: real, maxValue: real,
                      grayscale: bool, colors: seq<ElevationColor>, idx: nat)
    requires |noise| == width * height && |colors| > 0 && idx < |noise|
    ensures width > 0
    ensures PixelAt(noise, width, minValue, maxValue, grayscale, colors, idx).left < width * CellSize
    ensures PixelAt(noise, width, minValue, maxValue, grayscale, colors, idx).top < height * CellSize
  {
    GetCoordInGrid(idx, width, height);
  }

  /** The value of cell (x, y) of the map is painted at column x, row y. */
  lemma CellPixel(noise: seq<real>, width: nat, height: nat, minValue: real, maxValue: real,
                  grayscale: bool, colors: seq<ElevationColor>, x: nat, y: nat)
    requires |noise| == width * height && |colors| > 0 && x < width && y < height
    ensures y * width + x < |noise|
    ensures PixelAt(noise, width, minValue, maxValue, grayscale, colors, y * width + x).left == x
    ensures PixelAt(noise, width, minValue, maxValue, grayscale, colors, y * width + x).top == y
  {
    RowMajorBound(width, height, y, x);
    GetCoordOfCell(x, y, width);
  }
}
