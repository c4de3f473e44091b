/**
 * The running maximum and minimum that the generator keeps while it fills
 * the grid. Each new value is first compared with the maximum; only a value
 * that does NOT raise the maximum is compared with the minimum, so a value
 * that sets a new maximum never lowers the minimum in the same step.
 */
module Extrema {

  /** `f64::MAX`, the largest finite double, (2^53 - 1) * 2^971. */
  const F64Max: real := 179769313486231570814527423731704356798070567525844996598917476803157260780028538760589558632766878171540458953514382464234321326889464182768467546703537516986049910576551282076245490090389328944075868508455133942304583236903222948165808559332123348274797826204144723168738177180919299881250404026184124858368.0

  /** `f64::MIN`, the most negative finite double. */
  const F64Min: real := -F64Max

  datatype Extrema = Extrema(max: real, min: real)

  /** The starting point of the tracking: max at `f64::MIN`, min at `f64::MAX`. */
  const Sentinels: Extrema := Extrema(F64Min, F64Max)

  /** One step of the `if v > max { … } else if v < min { … }` update. */
  function Track(e: Extrema, v: real): (r: Extrema)
    ensures r.max >= e.max && r.max >= v
    ensures r.max == e.max || r.max == v
    ensures r.min <= e.min
    ensures r.min == e.min || r.min == v
    ensures v <= e.max ==> r.max == e.max && r.min <= v
    ensures v > e.max ==> r.min == e.min
  {
    if v > e.max then Extrema(v, e.min)
    else if v < e.min then Extrema(e.max, v)
    else e
  }

  /** The tracked extrema after the values `s`, in order, starting from `e`. */
  function TrackAll(e: Extrema, s: seq<real>): Extrema
  {
    if |s| == 0 then e else Track(TrackAll(e, s[..|s| - 1]), s[|s| - 1])
  }

  /** Seeing one more value is one more step of the update. */
  lemma TrackAllPush(e: Extrema, s: seq<real>, v: real)
    ensures TrackAll(e, s + [v]) == Track(TrackAll(e, s), v)
  {
    assert (s + [v])[..|s|] == s;
  }

  /** Tracking two stretches of values one after the other is tracking
      their concatenation. */
  lemma {:induction false} TrackAllAppend(e: Extrema, s: seq<real>, t: seq<real>)
    ensures TrackAll(e, s + t) == TrackAll(TrackAll(e, s), t)
  {
    if |t| == 0 {
      assert s + t == s;
    } else {
      var init, last := t[..|t| - 1], t[|t| - 1];
      TrackAllAppend(e, s, init);
      assert s + t == (s + init) + [last];
      TrackAllPush(e, s + init, last);
      TrackAllPush(TrackAll(e, s), init, last);
      assert t == init + [last];
    }
  }

  /** The tracked maximum is the maximum of the start value and every value
      seen: it bounds them all and is one of them. */
  lemma {:induction false} TrackAllMax(e: Extrema, s: seq<real>)
    ensures TrackAll(e, s).max >= e.max
    ensures forall i :: 0 <= i < |s| ==> s[i] <= TrackAll(e, s).max
    ensures TrackAll(e, s).max == e.max || TrackAll(e, s).max in s
  {
    if |s| > 0 {
      var init := s[..|s| - 1];
      TrackAllMax(e, init);
      assert forall i :: 0 <= i < |s| - 1 ==> s[i] == init[i];
    }
  }

  /** The tracked minimum never rises above its start value and is one of the
      values seen or the start value. */
  lemma {:induction false} TrackAllMinBounds(e: Extrema, s: seq<real>)
    ensures TrackAll(e, s).min <= e.min
    ensures TrackAll(e, s).min == e.min || TrackAll(e, s).min in s
  {
    if |s| > 0 {
      var init := s[..|s| - 1];
      TrackAllMinBounds(e, init);
      assert TrackAll(e, init).min in init ==> TrackAll(e, init).min in s;
    }
  }

  /** Every value that did not raise the maximum when it was seen is at least
      the final minimum. */
  lemma {:induction false} TrackAllMinBelowNonRaising(e: Extrema, s: seq<real>, k: nat)
    requires k < |s|
    requires s[k] <= TrackAll(e, s[..k]).max
    ensures TrackAll(e, s).min <= s[k]
  {
    var init := s[..|s| - 1];
    if k == |s| - 1 {
      assert init == s[..k];
    } else {
      assert init[..k] == s[..k];
      TrackAllMinBelowNonRaising(e, init, k);
    }
  }

  /** A sequence that keeps raising the maximum (its first value above the
      start maximum, each later value above the one before) never touches the
      minimum: it ends where it started, and the maximum is the last value. */
  lemma {:induction false} TrackAllIncreasingKeepsMin(e: Extrema, s: seq<real>)
    requires |s| > 0 ==> s[0] > e.max
    requires forall i, j :: 0 <= i < j < |s| ==> s[i] < s[j]
    ensures TrackAll(e, s).min == e.min
    ensures |s| > 0 ==> TrackAll(e, s).max == s[|s| - 1]
  {
    if |s| > 0 {
      var init := s[..|s| - 1];
      TrackAllIncreasingKeepsMin(e, init);
      TrackAllMax(e, init);
      assert TrackAll(e, init).max < s[|s| - 1];
    }
  }

  /** A single value above `f64::MIN` leaves the minimum at `f64::MAX`. */
  lemma SingleValueKeepsMinSentinel(v: real)
    requires v > F64Min
    ensures TrackAll(Sentinels, [v]) == Extrema(v, F64Max)
  {
    assert [v][..0] == [];
  }

  /** The tracked range need not contain every value seen: the first of
      0.5, 0.7 lies below the final minimum. */
  lemma FirstValueEscapesMin()
    ensures TrackAll(Sentinels, [0.5, 0.7]) == Extrema(0.7, F64Max)
    ensures 0.5 < TrackAll(Sentinels, [0.5, 0.7]).min
  {
    assert [0.5, 0.7][..1] == [0.5];
    SingleValueKeepsMinSentinel(0.5);
  }
}
