/** The records the application passes around: panoramas, detection boxes,
    observations and object summaries, plus the triangulation boundary. */
module Types {
  import opened Common

  /** A panorama's pose and image size. The image file handle is I/O and is
      not modelled. */
  datatype Pano = Pano(
    panoId: string,
    lat: real,
    lng: real,
    heading: real,
    imageWidth: real,
    imageHeight: real)

  /** A bounding box found in one panorama; `score` is optional. */
  datatype Detection = Detection(
    detectionId: string,
    panoId: string,
    xmin: real,
    ymin: real,
    xmax: real,
    ymax: real,
    score: Option<real>)

  /** The fields an observation built by the assigners carries beyond the ones
      a loaded project row provides: the box copy, its centre column, the
      panorama position snapshot and the creation time. */
  datatype Geometry = Geometry(
    xmin: real,
    ymin: real,
    xmax: real,
    ymax: real,
    cx: real,
    panoLat: real,
    panoLng: real,
    createdAt: string)

  /** A detection bound to an object. Observations read back from a project
      file carry no `geometry`. */
  datatype Observation = Observation(
    obsId: string,
    objectId: string,
    detectionId: string,
    panoId: string,
    bearingDeg: real,
    geometry: Option<Geometry>)

  /** An object's summary as shown in the object list. */
  datatype ProjectObject = ProjectObject(
    objectId: string,
    color: string,
    lat: Option<real>,
    lng: Option<real>,
    nObs: int,
    rmsM: Option<real>,
    updatedAt: Option<string>)

  datatype LatLng = LatLng(lat: real, lng: real)

  /** The detection ids of a list of observations, in order. */
  function DetectionIds(obs: seq<Observation>): (ids: seq<string>)
    ensures |ids| == |obs|
    ensures forall i :: 0 <= i < |obs| ==> ids[i] == obs[i].detectionId
  {
    seq(|obs|, i requires 0 <= i < |obs| => obs[i].detectionId)
  }

  /** `DetectionIds` distributes over concatenation. */
  lemma DetectionIdsAppend(a: seq<Observation>, b: seq<Observation>)
    ensures DetectionIds(a + b) == DetectionIds(a) + DetectionIds(b)
  {
  }

  /** The ids of a list of detections, in order. */
  function DetectionIdsOfDetections(dets: seq<Detection>): (ids: seq<string>)
    ensures |ids| == |dets|
    ensures forall i :: 0 <= i < |dets| ==> ids[i] == dets[i].detectionId
  {
    seq(|dets|, i requires 0 <= i < |dets| => dets[i].detectionId)
  }

  /** The panorama ids of a list of observations, in order. */
  function PanoIds(obs: seq<Observation>): (ids: seq<string>)
    ensures |ids| == |obs|
    ensures forall i :: 0 <= i < |obs| ==> ids[i] == obs[i].panoId
  {
    seq(|obs|, i requires 0 <= i < |obs| => obs[i].panoId)
  }

  /** The detections of one panorama, in their original order. */
  function OnPano(dets: seq<Detection>, panoId: string): (r: seq<Detection>)
    ensures |r| <= |dets|
    decreases |dets|
  {
    if |dets| == 0 then []
    else
      var rest := OnPano(dets[..|dets| - 1], panoId);
      if dets[|dets| - 1].panoId == panoId then rest + [dets[|dets| - 1]] else rest
  }

  /** `OnPano` keeps exactly the detections of the panorama. */
  lemma {:induction false} OnPanoMembers(dets: seq<Detection>, panoId: string)
    ensures forall d :: d in OnPano(dets, panoId) ==> d in dets && d.panoId == panoId
    ensures forall d :: d in dets && d.panoId == panoId ==> d in OnPano(dets, panoId)
    decreases |dets|
  {
    if |dets| > 0 {
      OnPanoMembers(dets[..|dets| - 1], panoId);
      assert forall d :: d in dets ==> d in dets[..|dets| - 1] || d == dets[|dets| - 1];
    }
  }

  /** `OnPano` keeps the detections in their original order. */
  lemma {:induction false} OnPanoIsSubseq(dets: seq<Detection>, panoId: string)
    ensures IsSubseq(OnPano(dets, panoId), dets)
    decreases |dets|
  {
    if |dets| > 0 {
      var init := dets[..|dets| - 1];
      OnPanoIsSubseq(init, panoId);
      SubseqSnoc(OnPano(init, panoId), init, dets[|dets| - 1]);
      assert init + [dets[|dets| - 1]] == dets;
    }
  }

  /** `OnPano` distributes over a trailing element, the step of a left fold. */
  lemma OnPanoSnoc(dets: seq<Detection>, d: Detection, panoId: string)
    ensures d.panoId == panoId ==> OnPano(dets + [d], panoId) == OnPano(dets, panoId) + [d]
    ensures d.panoId != panoId ==> OnPano(dets + [d], panoId) == OnPano(dets, panoId)
  {
    assert (dets + [d])[..|dets|] == dets;
  }
}

/** `triangulate`: the closest point to a bundle of bearing rays. The
    least-squares solve itself (floating point, trigonometry, square root) is
    the `solve` parameter; what is modelled is the guard against fewer than
    two observations and the shape of the result. */
module Triangulation {
  import opened Common
  import opened Types

  type NonNegReal = r: real | r >= 0.0

  /** The solved point and its RMS residual, a square root and so never negative. */
  datatype Fix = Fix(lat: real, lng: real, rms: NonNegReal)

  /** The least-squares solve; `None` when the normal equations are singular. */
  type Solver = seq<Observation> -> Option<Fix>

  datatype TriangulationResult = TriangulationResult(
    lat: real,
    lng: real,
    rms: real,
    nObs: int,
    stable: bool)

  function Triangulate(solve: Solver, obs: seq<Observation>): (r: Option<TriangulationResult>)
    ensures |obs| < 2 ==> r.None?
    ensures r.Some? ==> r.value.nObs == |obs| && r.value.stable && r.value.rms >= 0.0
    ensures |obs| >= 2 && solve(obs).Some? ==> r.Some? && r.value.rms == solve(obs).value.rms
    ensures r.Some? <==> |obs| >= 2 && solve(obs).Some?
    ensures r.Some? ==> r.value.lat == solve(obs).value.lat && r.value.lng == solve(obs).value.lng
  {
    if |obs| < 2 then None
    else
      match solve(obs)
      case None => None
      case Some(fix) => Some(TriangulationResult(fix.lat, fix.lng, fix.rms, |obs|, true))
  }

  /** `result?.rms ?? 0`. */
  function RmsOr0(t: Option<TriangulationResult>): real {
    match t
    case Some(res) => res.rms
    case None => 0.0
  }
}
