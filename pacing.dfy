/** The pure selection and pacing rules of the camera engine: index clamps,
    the choice of a fixed hardware frame rate, the frame-skip ratio, which
    capture callbacks are kept, and the preview rotation. */
module FramePacing {
  import opened Common
  import opened Parcels

  /** The user-facing frame rates, in the order the fps spinner lists them. */
  const DesiredEffectiveFps: seq<int> := [30, 15, 10, 5, 2, 1]

  /** `desiredEffectiveFpsValues.map { ParcelableFpsRange(it, it) }`. */
  function UiFpsRanges(): (r: seq<FpsRange>)
    ensures |r| == |DesiredEffectiveFps|
    ensures forall i :: 0 <= i < |r| ==> r[i] == FpsRange(DesiredEffectiveFps[i], DesiredEffectiveFps[i])
  {
    [FpsRange(30, 30), FpsRange(15, 15), FpsRange(10, 10), FpsRange(5, 5), FpsRange(2, 2), FpsRange(1, 1)]
  }

  /** `index?.takeIf { it >= 0 && it < size } ?: 0`: an in-range index is
      kept, an absent or out-of-range one becomes 0. */
  function ClampIndex(index: Option<int>, size: nat): (r: nat)
    ensures size > 0 ==> r < size
    ensures index.Some? && 0 <= index.value < size ==> r == index.value
    ensures r != 0 ==> index == Some(r as int)
  {
    if index.Some? && 0 <= index.value < size then index.value else 0
  }

  /** Clamping an already clamped index changes nothing. */
  lemma ClampIndexIdempotent(index: Option<int>, size: nat)
    requires size > 0
    ensures ClampIndex(Some(ClampIndex(index, size) as int), size) == ClampIndex(index, size)
  {
  }

  /** The ranges whose lower bound is at least `e`, in list order
      (`filter { it.lower >= e }`). */
  function AtLeast(rs: seq<FpsRange>, e: int): (r: seq<FpsRange>)
    ensures forall x :: x in r <==> x in rs && x.lower >= e
    ensures |r| <= |rs|
  {
    if rs == [] then []
    else if rs[0].lower >= e then [rs[0]] + AtLeast(rs[1..], e)
    else AtLeast(rs[1..], e)
  }

  /** `minByOrNull { it.lower }`: the first range of least lower bound. */
  function MinByLower(rs: seq<FpsRange>): (r: Option<FpsRange>)
    ensures r.Some? <==> |rs| > 0
    ensures r.Some? ==> r.value in rs && forall x :: x in rs ==> r.value.lower <= x.lower
  {
    if rs == [] then None
    else
      var rest := MinByLower(rs[1..]);
      if rest.None? || rs[0].lower <= rest.value.lower then Some(rs[0]) else rest
  }

  /** `maxByOrNull { it.lower }`: the first range of greatest lower bound. */
  function MaxByLower(rs: seq<FpsRange>): (r: Option<FpsRange>)
    ensures r.Some? <==> |rs| > 0
    ensures r.Some? ==> r.value in rs && forall x :: x in rs ==> x.lower <= r.value.lower
  {
    if rs == [] then None
    else
      var rest := MaxByLower(rs[1..]);
      if rest.None? || rs[0].lower >= rest.value.lower then Some(rs[0]) else rest
  }

  /** The fixed camera rate used for an effective rate `e`: the smallest
      hardware rate that is at least `e`, else the largest hardware rate,
      else 30 when the hardware list is empty. */
  function ChooseHardwareFps(hw: seq<FpsRange>, e: int): int
  {
    var above := MinByLower(AtLeast(hw, e));
    var chosen := if above.Some? then above else MaxByLower(hw);
    if chosen.Some? then chosen.value.lower else 30
  }

  /** The chosen rate is 30 without hardware rates and otherwise one the
      hardware offers: the least one reaching `e` when there is one, else
      the greatest. */
  lemma ChooseHardwareFpsSpec(hw: seq<FpsRange>, e: int)
    ensures var fps := ChooseHardwareFps(hw, e);
      (hw == [] ==> fps == 30) &&
      (hw != [] ==> exists x :: x in hw && x.lower == fps) &&
      ((exists x :: x in hw && x.lower >= e) ==>
        fps >= e && forall x :: x in hw && x.lower >= e ==> fps <= x.lower) &&
      ((forall x :: x in hw ==> x.lower < e) ==>
        forall x :: x in hw ==> x.lower <= fps)
  {
    var above := MinByLower(AtLeast(hw, e));
    var chosen := if above.Some? then above else MaxByLower(hw);
    if hw != [] {
      assert chosen.Some? && chosen.value in hw;
    }
  }

  /** `if (e > 0) max(1, floor(actual.toDouble() / e.toDouble()).toInt()) else 1`.
      For `Int` operands the double quotient is exact enough that its floor
      is the floor of the rational quotient, which is Dafny's `/` for a
      positive divisor. */
  function FrameSkipRatio(actual: int, e: int): (r: int)
    ensures r >= 1
  {
    if e > 0 then
      var q := actual / e;
      if q > 1 then q else 1
    else 1
  }

  /** The skip ratio is the number of whole effective-rate periods in the
      camera rate: keeping every `r`-th frame of `actual` per second keeps
      at least `e` and fewer than `2e` of them; a camera no faster than
      twice the effective rate, or a non-positive effective rate, skips
      nothing. */
  lemma FrameSkipRatioSpec(actual: int, e: int)
    ensures var r := FrameSkipRatio(actual, e);
      (e > 0 && actual >= e ==> r * e <= actual < (r + 1) * e) &&
      (e <= 0 || actual < 2 * e ==> r == 1)
  {
    if e > 0 {
      DivBounds(actual, e);
    }
  }

  lemma DivBounds(a: int, d: int)
    requires d > 0
    ensures (a / d) * d <= a < (a / d + 1) * d
  {
  }

  /** The callback numbered `k` (counting from 1 after a restart) decodes
      its image exactly when `k % ratio == 0`. */
  predicate KeepsFrame(k: nat, ratio: nat)
    requires ratio >= 1
  {
    k % ratio == 0
  }

  /** How many of the callbacks 1..n decoded an image. */
  function FramesKept(n: nat, ratio: nat): nat
    requires ratio >= 1
  {
    if n == 0 then 0 else FramesKept(n - 1, ratio) + (if KeepsFrame(n, ratio) then 1 else 0)
  }

  /** Of `n` callbacks after a restart, exactly `n / ratio` decode. */
  lemma {:induction false} FramesKeptCount(n: nat, ratio: nat)
    requires ratio >= 1
    ensures FramesKept(n, ratio) == n / ratio
  {
    if n > 0 {
      FramesKeptCount(n - 1, ratio);
      DivStep(n, ratio);
    }
  }

  /** `n / d` goes up by one from `n - 1` exactly when `d` divides `n`. */
  lemma DivStep(n: nat, d: nat)
    requires n > 0 && d >= 1
    ensures n / d == (n - 1) / d + (if n % d == 0 then 1 else 0)
  {
    var q, m := (n - 1) / d, (n - 1) % d;
    assert n - 1 == q * d + m && 0 <= m < d;
    if m + 1 == d {
      assert n == (q + 1) * d + 0;
      DivModUnique(n, d, q + 1, 0);
    } else {
      DivModUnique(n, d, q, m + 1);
    }
  }

  lemma DivModUnique(n: int, d: int, q: int, m: int)
    requires d > 0 && 0 <= m < d && n == q * d + m
    ensures n / d == q && n % d == m
  {
    var q', m' := n / d, n % d;
    assert n == q' * d + m' && 0 <= m' < d;
    if q' < q {
      assert q' * d + d <= q * d by { MulLeq(q' + 1, q, d); }
    } else if q' > q {
      assert q * d + d <= q' * d by { MulLeq(q + 1, q', d); }
    }
  }

  lemma MulLeq(a: int, b: int, d: int)
    requires a <= b && d > 0
    ensures a * d <= b * d
  {
  }

  /** Kotlin's `%` on `Int`: the remainder takes the sign of the dividend. */
  function Rem(a: int, b: int): (r: int)
    requires b > 0
    ensures a >= 0 ==> r == a % b
    ensures -b < r < b
    ensures r != 0 ==> (r < 0 <==> a < 0)
  {
    if a >= 0 then a % b else -((-a) % b)
  }

  /** The remainder differs from the dividend by a multiple of the divisor. */
  lemma RemCongruent(a: int, b: int)
    requires b > 0
    ensures (a - Rem(a, b)) % b == 0
  {
    if a >= 0 {
      var q := a / b;
      assert a - Rem(a, b) == q * b;
      DivModUnique(q * b, b, q, 0);
    } else {
      var q := (-a) / b;
      assert -a == q * b + (-a) % b;
      assert a - Rem(a, b) == (-q) * b;
      DivModUnique((-q) * b, b, -q, 0);
    }
  }

  /** `(sensorOrientation - displayRotation + 360) % 360`: how far the decoded
      frame is turned before it is shown. */
  function PreviewRotation(sensor: int, display: int): (rot: int)
    ensures 0 <= sensor < 360 && 0 <= display < 360 ==> 0 <= rot < 360
    ensures (rot - (sensor - display)) % 360 == 0
  {
    RemCongruent(sensor - display + 360, 360);
    assert (sensor - display + 360 - Rem(sensor - display + 360, 360)) % 360 == 0;
    DivModShift(sensor - display - Rem(sensor - display + 360, 360), 360);
    Rem(sensor - display + 360, 360)
  }

  lemma DivModShift(a: int, b: int)
    requires b > 0 && (a + b) % b == 0
    ensures a % b == 0
  {
    var q := (a + b) / b;
    assert a == (q - 1) * b;
    DivModUnique(a, b, q - 1, 0);
  }
}
