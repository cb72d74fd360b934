/**
  The NRRD header written by `save_vol_nrrd`: one label, one spacing and one
  origin per axis, in the order of the axis table. Spacing and origin are
  taken from the first two samples of each axis, so an NRRD reader that
  rebuilds coordinates as `origin + i * spacing` gets back a uniformly spaced
  axis exactly.
 */
module NrrdHeader {
  import opened Wrappers
  import opened NxsLoad

  /** The fixed coordinate space. */
  const Space: string := "right-anterior-superior"

  datatype Header = Header(space: string, labels: seq<string>, spacings: seq<real>, origin: seq<real>)

  /** What building the header raises: the result has no `"axes"` entry, or
      an axis has too few samples for `i[1]`. */
  datatype HeaderFailure = NoAxes | ShortAxis(name: string)

  /** The first axis with fewer than two samples. */
  function FirstShort(axes: seq<Axis>): (r: Option<nat>)
    ensures r.Some? ==> (r.value < |axes| && |axes[r.value].samples| < 2
      && forall j :: 0 <= j < r.value ==> |axes[j].samples| >= 2)
    ensures r.None? ==> forall j :: 0 <= j < |axes| ==> |axes[j].samples| >= 2
  {
    if axes == [] then None
    else if |axes[0].samples| < 2 then Some(0)
    else match FirstShort(axes[1..])
      case None => None
      case Some(k) => Some(k + 1)
  }

  /** The header of the volume: labels, spacings and origins, one per axis. */
  function HeaderOf(v: VolumeData): (r: Result<Header, HeaderFailure>)
    ensures v.axes.None? ==> r == Failure(NoAxes)
    ensures v.axes.Some? ==>
      (r.Success? <==> forall k :: 0 <= k < |v.axes.value| ==> |v.axes.value[k].samples| >= 2)
    ensures v.axes.Some? && r.Failure? ==> exists k :: (
      && 0 <= k < |v.axes.value|
      && r.error == ShortAxis(v.axes.value[k].name)
      && |v.axes.value[k].samples| < 2
      && forall j :: 0 <= j < k ==> |v.axes.value[j].samples| >= 2)
    ensures r.Success? ==>
      var axes := v.axes.value;
      && r.value.space == Space
      && |r.value.labels| == |r.value.spacings| == |r.value.origin| == |axes|
      && forall k :: 0 <= k < |axes| ==>
           && r.value.labels[k] == axes[k].name
           && r.value.spacings[k] == axes[k].samples[1] - axes[k].samples[0]
           && r.value.origin[k] == axes[k].samples[0]
  {
    match v.axes
    case None => Failure(NoAxes)
    case Some(axes) =>
      match FirstShort(axes)
      case Some(k) => Failure(ShortAxis(axes[k].name))
      case None =>
        var spacings := seq(|axes|, k requires 0 <= k < |axes| => axes[k].samples[1] - axes[k].samples[0]);
        var origin := seq(|axes|, k requires 0 <= k < |axes| => axes[k].samples[0]);
        Success(Header(Space, Names(axes), spacings, origin))
  }

  /** Samples a constant step apart. */
  predicate Uniform(s: seq<real>) {
    |s| >= 2 && forall i :: 1 <= i < |s| ==> s[i] - s[i - 1] == s[1] - s[0]
  }

  /** Every sample of a uniform axis is the first plus a whole number of steps. */
  lemma {:induction false} UniformSample(s: seq<real>, i: nat)
    requires Uniform(s) && i < |s|
    ensures s[i] == s[0] + (i as real) * (s[1] - s[0])
  {
    if i > 0 {
      UniformSample(s, i - 1);
      assert s[i] - s[i - 1] == s[1] - s[0];
    }
  }

  /** Rebuilding each uniform axis from the header's origin and spacing gives
      back its samples. */
  lemma HeaderRecoversUniformAxes(v: VolumeData, h: Header)
    requires HeaderOf(v) == Success(h)
    requires forall k :: 0 <= k < |v.axes.value| ==> Uniform(v.axes.value[k].samples)
    ensures forall k, i :: 0 <= k < |v.axes.value| && 0 <= i < |v.axes.value[k].samples| ==>
      v.axes.value[k].samples[i] == h.origin[k] + (i as real) * h.spacings[k]
  {
    forall k, i | 0 <= k < |v.axes.value| && 0 <= i < |v.axes.value[k].samples|
      ensures v.axes.value[k].samples[i] == h.origin[k] + (i as real) * h.spacings[k]
    {
      UniformSample(v.axes.value[k].samples, i);
    }
  }

  /** The header written for a load's result carries the axis names in force,
      without repeats, in first-occurrence order. */
  lemma HeaderLabelsFollowAxisNames(v: VolumeData, h: Header, names: seq<string>)
    requires v.axes.Some? && Names(v.axes.value) == Distinct(names)
    requires HeaderOf(v) == Success(h)
    ensures h.labels == Distinct(names)
    ensures forall x :: x in h.labels <==> x in names
  {
    DistinctOrdered(names);
    assert h.labels == Names(v.axes.value);
  }
}
