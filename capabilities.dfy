/** The capability negotiation the engine runs for the selected camera: which
    output format and sizes to use, and which fixed hardware frame rates the
    camera offers. */
module Capabilities {
  import opened Common
  import opened Parcels
  import opened FrameRepack

  /** `SCALER_STREAM_CONFIGURATION_MAP`, reduced to the two queries made of
      it; `None` is a format the camera reports no sizes for (`null`). */
  datatype StreamConfigurationMap = StreamConfigurationMap(jpegSizes: Option<seq<Size>>, yuvSizes: Option<seq<Size>>)

  /** The `CameraCharacteristics` keys the engine reads; each may be absent. */
  datatype Characteristics = Characteristics(
    configMap: Option<StreamConfigurationMap>,
    aeTargetFpsRanges: Option<seq<FpsRange>>,
    sensorOrientation: Option<int>,
    afModes: Option<seq<int>>)

  /** `characteristics?.get(SENSOR_ORIENTATION) ?: 0`. */
  function SensorOrientation(c: Option<Characteristics>): int
  {
    if c.Some? && c.value.sensorOrientation.Some? then c.value.sensorOrientation.value else 0
  }

  function Reverse<T>(s: seq<T>): (r: seq<T>)
    ensures |r| == |s|
    ensures forall i :: 0 <= i < |s| ==> r[i] == s[|s| - 1 - i]
  {
    if s == [] then [] else Reverse(s[1..]) + [s[0]]
  }

  /** The sizes reported for one format, reversed; nothing when absent. */
  function ReversedSizes(sizes: Option<seq<Size>>): seq<Size>
  {
    if sizes.Some? then Reverse(sizes.value) else []
  }

  const DefaultSizes: seq<Size> := [Size(1280, 720), Size(640, 480)]

  datatype Output = Output(sizes: seq<Size>, format: int)

  /** The output choice: the JPEG sizes (reversed) when there are any, else the
      YUV_420_888 sizes (reversed), else 1280x720 and 640x480 in YUV_420_888;
      a still-empty list would become 640x480. */
  function NegotiateOutput(configMap: Option<StreamConfigurationMap>): (out: Output)
    ensures |out.sizes| > 0
    ensures out.format == JPEG || out.format == YUV_420_888
    ensures var jpeg := if configMap.Some? then configMap.value.jpegSizes else None;
      (out.format == JPEG <==> jpeg.Some? && |jpeg.value| > 0) &&
      (out.format == JPEG ==> out.sizes == Reverse(jpeg.value))
    ensures var jpeg := if configMap.Some? then configMap.value.jpegSizes else None;
      var yuv := if configMap.Some? then configMap.value.yuvSizes else None;
      out.format == YUV_420_888 ==>
        if yuv.Some? && |yuv.value| > 0 then out.sizes == Reverse(yuv.value)
        else out.sizes == DefaultSizes
  {
    var jpeg := if configMap.Some? then ReversedSizes(configMap.value.jpegSizes) else [];
    var yuv := if configMap.Some? then ReversedSizes(configMap.value.yuvSizes) else [];
    var out :=
      if jpeg != [] then Output(jpeg, JPEG)
      else if yuv != [] then Output(yuv, YUV_420_888)
      else Output(DefaultSizes, YUV_420_888);
    if out.sizes == [] then Output([Size(640, 480)], out.format) else out
  }

  /** The ranges with `lower == upper`, in the order reported. */
  function Fixed(rs: seq<FpsRange>): (r: seq<FpsRange>)
    ensures forall x :: x in r <==> x in rs && x.lower == x.upper
  {
    if rs == [] then []
    else
      var last := rs[|rs| - 1];
      Fixed(rs[..|rs| - 1]) + (if last.lower == last.upper then [last] else [])
  }

  /** The `forEach` over `CONTROL_AE_AVAILABLE_TARGET_FPS_RANGES` that adds
      every fixed range to `hwStaticRanges`. */
  method CollectFixedRanges(all: Option<seq<FpsRange>>) returns (fixed: seq<FpsRange>)
    ensures all.None? ==> fixed == []
    ensures all.Some? ==> fixed == Fixed(all.value)
  {
    fixed := [];
    if all.Some? {
      var rs := all.value;
      var i := 0;
      while i < |rs|
        invariant 0 <= i <= |rs|
        invariant fixed == Fixed(rs[..i])
      {
        assert rs[..i + 1][..i] == rs[..i];
        if rs[i].lower == rs[i].upper {
          fixed := fixed + [rs[i]];
        }
        i := i + 1;
      }
      assert rs[..i] == rs;
    }
  }

  predicate NoDuplicates<T(==)>(s: seq<T>)
  {
    forall i, j :: 0 <= i < j < |s| ==> s[i] != s[j]
  }

  /** `distinct()`: the first occurrence of each range, in order. */
  function Distinct(s: seq<FpsRange>): (r: seq<FpsRange>)
    ensures forall x :: x in r <==> x in s
    ensures NoDuplicates(r)
  {
    if s == [] then []
    else
      var d := Distinct(s[..|s| - 1]);
      var last := s[|s| - 1];
      if last in d then d else d + [last]
  }

  predicate SortedByLowerDesc(s: seq<FpsRange>)
  {
    forall i, j :: 0 <= i < j < |s| ==> s[i].lower >= s[j].lower
  }

  /** Places `x` before the first element whose lower bound is not above its
      own; the result holds exactly the elements of `t` and `x`. */
  function InsertByLower(x: FpsRange, t: seq<FpsRange>): (r: seq<FpsRange>)
    ensures multiset(r) == multiset(t) + multiset{x}
  {
    if t == [] || x.lower >= t[0].lower then [x] + t
    else
      assert t == [t[0]] + t[1..];
      [t[0]] + InsertByLower(x, t[1..])
  }

  /** Inserting into a list sorted by descending lower bound keeps it sorted. */
  lemma {:induction false} InsertKeepsSorted(x: FpsRange, t: seq<FpsRange>)
    requires SortedByLowerDesc(t)
    ensures SortedByLowerDesc(InsertByLower(x, t))
  {
    if t != [] && x.lower < t[0].lower {
      var u := InsertByLower(x, t[1..]);
      InsertKeepsSorted(x, t[1..]);
      LowerBoundCarries(u, t[1..], x, t[0].lower);
    }
  }

  /** A bound on the lower bounds of `t` and of `x` bounds every element of
      a sequence holding `t` and `x`. */
  lemma LowerBoundCarries(u: seq<FpsRange>, t: seq<FpsRange>, x: FpsRange, b: int)
    requires multiset(u) == multiset(t) + multiset{x}
    requires b >= x.lower && forall k :: 0 <= k < |t| ==> b >= t[k].lower
    ensures forall k :: 0 <= k < |u| ==> b >= u[k].lower
  {
    forall k | 0 <= k < |u| ensures b >= u[k].lower {
      assert u[k] in multiset(u);
      if u[k] != x {
        assert u[k] in multiset(t);
      }
    }
  }

  /** A multiset equality carries over membership and the absence of duplicates. */
  lemma {:induction false} SameMultiset(s: seq<FpsRange>, t: seq<FpsRange>)
    requires multiset(s) == multiset(t)
    ensures forall y :: y in s <==> y in t
    ensures NoDuplicates(s) ==> NoDuplicates(t)
  {
    forall y ensures y in s <==> y in t {
      assert y in s <==> y in multiset(s);
      assert y in t <==> y in multiset(t);
    }
    if NoDuplicates(s) {
      forall i, j | 0 <= i < j < |t| ensures t[i] != t[j] {
        if t[i] == t[j] {
          assert t == t[..j] + [t[j]] + t[j + 1..];
          assert t[i] in t[..j];
          assert multiset(t)[t[i]] >= 2;
          CountInNoDuplicates(s, t[i]);
          assert false;
        }
      }
    }
  }

  lemma {:induction false} CountInNoDuplicates(s: seq<FpsRange>, y: FpsRange)
    requires NoDuplicates(s)
    ensures multiset(s)[y] <= 1
  {
    if s != [] {
      var u := s[1..];
      assert s == [s[0]] + u;
      assert NoDuplicates(u);
      CountInNoDuplicates(u, y);
      if s[0] == y {
        assert y !in u;
      }
    }
  }

  /** `sortedByDescending { it.lower }`, a stable sort. */
  function SortByLowerDesc(s: seq<FpsRange>): (r: seq<FpsRange>)
    ensures SortedByLowerDesc(r)
    ensures multiset(r) == multiset(s)
  {
    if s == [] then []
    else
      assert s == [s[0]] + s[1..];
      InsertKeepsSorted(s[0], SortByLowerDesc(s[1..]));
      InsertByLower(s[0], SortByLowerDesc(s[1..]))
  }

  const DefaultHardwareFps: seq<FpsRange> := [FpsRange(30, 30)]

  /** The hardware list the engine keeps: the distinct fixed ranges sorted by
      lower bound, highest first, or `[30, 30]` when there are none. */
  function NormalizeHardwareRanges(fixed: seq<FpsRange>): seq<FpsRange>
  {
    if fixed != [] then SortByLowerDesc(Distinct(fixed)) else DefaultHardwareFps
  }

  /** What the negotiation yields about the camera's frame rates: a non-empty
      list of fixed ranges; exactly the fixed ranges the camera reports, each
      once, strictly decreasing, when it reports any; `[30, 30]` otherwise. */
  lemma {:induction false} HardwareRangesSpec(all: seq<FpsRange>)
    ensures var r := NormalizeHardwareRanges(Fixed(all));
      |r| > 0 &&
      (forall i :: 0 <= i < |r| ==> r[i].lower == r[i].upper) &&
      (forall i, j :: 0 <= i < j < |r| ==> r[i].lower > r[j].lower)
    ensures (exists x :: x in all && x.lower == x.upper) ==>
      forall x :: x in NormalizeHardwareRanges(Fixed(all)) <==> x in all && x.lower == x.upper
    ensures (forall x :: x in all ==> x.lower != x.upper) ==>
      NormalizeHardwareRanges(Fixed(all)) == DefaultHardwareFps
  {
    var fixed := Fixed(all);
    var r := NormalizeHardwareRanges(fixed);
    if fixed != [] {
      assert fixed[0] in fixed;
      SameMultiset(Distinct(fixed), r);
      forall i, j | 0 <= i < j < |r| ensures r[i].lower > r[j].lower {
        assert r[i] in fixed && r[j] in fixed;
        assert r[i] != r[j];
      }
    }
  }

  /** The hardware list negotiated from a camera's characteristics; a camera
      that reports no ranges at all is treated like one with no fixed range. */
  function HardwareRanges(c: Characteristics): seq<FpsRange>
  {
    NormalizeHardwareRanges(if c.aeTargetFpsRanges.Some? then Fixed(c.aeTargetFpsRanges.value) else [])
  }

  const AfModeContinuousPicture: int := 4

  /** Whether `CONTROL_AF_AVAILABLE_MODES` lists continuous-picture focus. */
  predicate SupportsContinuousPicture(c: Option<Characteristics>)
  {
    c.Some? && c.value.afModes.Some? && AfModeContinuousPicture in c.value.afModes.value
  }
}
