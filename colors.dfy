/**
 * The colour bands of the front end: a list of elevation colours, each a
 * colour and the height up to which it is used, and the choice of the band
 * for one normalised height by
 * `colors.slice().reverse().reduce((accum, next) => amount <= next.height ? next : accum)`.
 */
module ElevationColors {

  /** A normalised height as JavaScript computes it: a number, or NaN when
      the tracked minimum and maximum coincide and the value equals them. */
  datatype Amount = Num(value: real) | NaN

  /** The `[red, green, blue]` triple of a colour. */
  datatype Rgb = Rgb(red: int, green: int, blue: int)

  /** An `ElevationColor`: `color` is used for heights up to `height`. */
  datatype ElevationColor = ElevationColor(color: Rgb, height: real)

  /** The colour list the page starts with: deep water, shallow water,
      grass, earth, dark earth and snow. */
  function DefaultColors(): (cs: seq<ElevationColor>)
    ensures |cs| == 6 && Ascending(cs) && cs[5].height == 1.0
  {
    [ ElevationColor(Rgb(0, 79, 163), 0.3)
    , ElevationColor(Rgb(66, 135, 245), 0.4)
    , ElevationColor(Rgb(34, 201, 101), 0.65)
    , ElevationColor(Rgb(105, 55, 6), 0.73)
    , ElevationColor(Rgb(74, 37, 1), 0.9)
    , ElevationColor(Rgb(255, 255, 255), 1.0)
    ]
  }

  /** `amount <= next.height`; a comparison with NaN is false. */
  predicate Fits(amount: Amount, e: ElevationColor)
  {
    amount.Num? && amount.value <= e.height
  }

  /** `Array.prototype.reverse` as a value. */
  function Reverse<T>(s: seq<T>): (r: seq<T>)
    ensures |r| == |s|
    ensures forall i :: 0 <= i < |s| ==> r[i] == s[|s| - 1 - i]
  {
    if |s| == 0 then [] else [s[|s| - 1]] + Reverse(s[..|s| - 1])
  }

  /** The reducer `(accum, next) => amount <= next.height ? next : accum`. */
  function Pick(amount: Amount, accum: ElevationColor, next: ElevationColor): ElevationColor
  {
    if Fits(amount, next) then next else accum
  }

  /** `reduce` with the reducer above, from `accum` over `rest`, left to right. */
  function FoldPick(amount: Amount, accum: ElevationColor, rest: seq<ElevationColor>): ElevationColor
    decreases rest
  {
    if |rest| == 0 then accum else FoldPick(amount, Pick(amount, accum, rest[0]), rest[1..])
  }

  /** The band chosen for `amount`; `reduce` without an initial value throws
      on an empty list, which is `None` here. */
  function SelectColor(colors: seq<ElevationColor>, amount: Amount): (r: Option<ElevationColor>)
    ensures r.None? <==> |colors| == 0
    ensures |colors| > 0 ==> r == Some(colors[FirstFit(colors, amount)])
  {
    var rev := Reverse(colors);
    if |rev| == 0 then None
    else
      SelectIsFirstFit(colors, amount);
      Some(FoldPick(amount, rev[0], rev[1..]))
  }

  datatype Option<T> = None | Some(value: T)

  /** The reference choice: the first band, among all but the last, that
      `amount` fits under, and otherwise the last band. */
  function FirstFit(cs: seq<ElevationColor>, amount: Amount): (k: nat)
    requires |cs| > 0
    ensures k < |cs|
    ensures k < |cs| - 1 ==> Fits(amount, cs[k])
    ensures forall j :: 0 <= j < k ==> !Fits(amount, cs[j])
  {
    if |cs| == 1 || Fits(amount, cs[0]) then 0 else 1 + FirstFit(cs[1..], amount)
  }

  /** Scanning from the front: the first entry that `amount` fits under,
      or `otherwise` when there is none. */
  function Scan(amount: Amount, p: seq<ElevationColor>, otherwise: ElevationColor): ElevationColor
  {
    if |p| == 0 then otherwise
    else if Fits(amount, p[0]) then p[0]
    else Scan(amount, p[1..], otherwise)
  }

  /** One more entry at the back of the scan is one more reducer step on the
      fallback. */
  lemma {:induction false} ScanPush(amount: Amount, p: seq<ElevationColor>, v: ElevationColor, otherwise: ElevationColor)
    ensures Scan(amount, p + [v], otherwise) == Scan(amount, p, Pick(amount, otherwise, v))
  {
    if |p| > 0 {
      assert (p + [v])[1..] == p[1..] + [v];
      ScanPush(amount, p[1..], v, otherwise);
    }
  }

  /** Reducing the reversed list is scanning the list from the front: the
      last fitting entry the reducer sees is the first one in the list. */
  lemma {:induction false} FoldReverseIsScan(amount: Amount, accum: ElevationColor, p: seq<ElevationColor>)
    ensures FoldPick(amount, accum, Reverse(p)) == Scan(amount, p, accum)
    decreases p
  {
    if |p| > 0 {
      var init, last := p[..|p| - 1], p[|p| - 1];
      assert Reverse(p) == [last] + Reverse(init);
      assert ([last] + Reverse(init))[1..] == Reverse(init);
      FoldReverseIsScan(amount, Pick(amount, accum, last), init);
      ScanPush(amount, init, last, accum);
      assert p == init + [last];
    }
  }

  /** The scan with the last band as fallback picks the `FirstFit` band. */
  lemma {:induction false} ScanIsFirstFit(amount: Amount, cs: seq<ElevationColor>)
    requires |cs| > 0
    ensures Scan(amount, cs[..|cs| - 1], cs[|cs| - 1]) == cs[FirstFit(cs, amount)]
  {
    if |cs| > 1 && !Fits(amount, cs[0]) {
      ScanIsFirstFit(amount, cs[1..]);
      assert cs[..|cs| - 1][1..] == cs[1..][..|cs| - 2];
    }
  }

  /** The reduction over the reversed copy picks the `FirstFit` band. */
  lemma SelectIsFirstFit(colors: seq<ElevationColor>, amount: Amount)
    requires |colors| > 0
    ensures FoldPick(amount, Reverse(colors)[0], Reverse(colors)[1..]) == colors[FirstFit(colors, amount)]
  {
    var init, last := colors[..|colors| - 1], colors[|colors| - 1];
    assert Reverse(colors) == [last] + Reverse(init);
    assert Reverse(colors)[1..] == Reverse(init);
    FoldReverseIsScan(amount, last, init);
    ScanIsFirstFit(amount, colors);
  }

  /** Heights that never go down along the list. */
  predicate Ascending(cs: seq<ElevationColor>)
  {
    forall i, j :: 0 <= i < j < |cs| ==> cs[i].height <= cs[j].height
  }

  /** With ascending heights and an amount no higher than the last one, the
      chosen band is the one with the smallest height at or above the amount. */
  lemma AscendingPicksTightestBand(cs: seq<ElevationColor>, a: real)
    requires |cs| > 0 && Ascending(cs) && a <= cs[|cs| - 1].height
    ensures SelectColor(cs, Num(a)).Some?
    ensures a <= SelectColor(cs, Num(a)).value.height
    ensures forall e :: e in cs && a <= e.height ==> SelectColor(cs, Num(a)).value.height <= e.height
  {
    var k := FirstFit(cs, Num(a));
    forall e | e in cs && a <= e.height
      ensures cs[k].height <= e.height
    {
      var j :| 0 <= j < |cs| && cs[j] == e;
      assert !(j < k);
    }
  }

  /** The last band's height is never compared: an amount above every other
      band's height gets the last band, even when it is above that one too. */
  lemma AboveOthersPicksLastBand(cs: seq<ElevationColor>, a: real)
    requires |cs| > 0
    requires forall j :: 0 <= j < |cs| - 1 ==> cs[j].height < a
    ensures SelectColor(cs, Num(a)) == Some(cs[|cs| - 1])
  {
  }

  /** For a NaN amount no comparison holds, so the last band is chosen. */
  lemma NaNPicksLastBand(cs: seq<ElevationColor>)
    requires |cs| > 0
    ensures SelectColor(cs, NaN) == Some(cs[|cs| - 1])
  {
  }

  /** The default heights ascend and end at 1.0, so every amount in [0, 1]
      gets the band with the smallest height at or above it. */
  lemma DefaultColorsPickTightestBand(a: real)
    requires a <= 1.0
    ensures a <= SelectColor(DefaultColors(), Num(a)).value.height
    ensures forall e :: e in DefaultColors() && a <= e.height ==>
              SelectColor(DefaultColors(), Num(a)).value.height <= e.height
  {
    AscendingPicksTightestBand(DefaultColors(), a);
  }

  /** Half-way up is grass. */
  lemma HalfWayIsGrass()
    ensures SelectColor(DefaultColors(), Num(0.5)) == Some(ElevationColor(Rgb(34, 201, 101), 0.65))
  {
    DefaultColorsPickTightestBand(0.5);
  }

  /** `reverse()` on an array: the elements in the opposite order, in place. */
  method ReverseInPlace<T>(a: array<T>)
    modifies a
    ensures a[..] == Reverse(old(a[..]))
  {
    var n := a.Length;
    for i := 0 to n / 2
      invariant forall k :: 0 <= k < i ==> a[k] == old(a[n - 1 - k]) && a[n - 1 - k] == old(a[k])
      invariant forall k :: i <= k < n - i ==> a[k] == old(a[k])
    {
      a[i], a[n - 1 - i] := a[n - 1 - i], a[i];
    }
  }

  /** The band of one cell as the page computes it: copy the list
      (`slice`), reverse the copy in place, then reduce it from its first
      element; `reduce` throws on an empty list, which is `None` here. The
      page's own list is left as it was. */
  method CellColor(colors: array<ElevationColor>, amount: Amount) returns (c: Option<ElevationColor>)
    ensures c == SelectColor(colors[..], amount)
  {
    if colors.Length == 0 {
      return None;
    }
    var copy := new ElevationColor[colors.Length];
    forall i | 0 <= i < colors.Length {
      copy[i] := colors[i];
    }
    assert copy[..] == colors[..];
    ReverseInPlace(copy);
    var accum := copy[0];
    for i := 1 to copy.Length
      invariant FoldPick(amount, accum, copy[i..]) == FoldPick(amount, copy[0], copy[1..])
    {
      assert copy[i..][1..] == copy[i + 1..];
      if Fits(amount, copy[i]) {
        accum := copy[i];
      }
    }
    c := Some(accum);
  }
}
