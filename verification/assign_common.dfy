/** What the two auto-assigners (`src/state/seedGrow.ts` and the older
    `src/state/autoAssign.ts`) share: the state they read, the angular
    difference of two bearings, turning a detection into an observation, and
    the free-detection filter. */
module AssignCommon {
  import opened Common
  import opened OrderedMap
  import opened Types
  import opened Triangulation
  import JsMath
  import Bearing

  /** The part of the application state the assigners read. */
  datatype AssignState = AssignState(
    panosById: OMap<string, Pano>,
    detectionsById: OMap<string, Detection>,
    observationsByObjectId: OMap<string, seq<Observation>>)

  /** The numeric collaborators the model does not compute: the least-squares
      solve inside `triangulate` and the haversine `distanceMeters`. */
  datatype Oracles = Oracles(solve: Solver, distance: (LatLng, LatLng) -> real)

  /** The observation id (`makeObservationId`, a random UUID) and creation
      time (`nowIso`) given to the observations one call builds. */
  datatype Stamp = Stamp(obsId: string, createdAt: string)

  /** Every panorama has a non-zero image width, so bearings are defined. */
  ghost predicate WidthsNonZero(panos: OMap<string, Pano>) {
    forall id :: Get(panos, id).Some? ==> Get(panos, id).value.imageWidth != 0.0
  }

  /** `angleDiffDeg`: the absolute difference of two bearings folded into a half turn. */
  function AngleDiffDeg(a: real, b: real): (d: real)
    ensures d >= 0.0
  {
    var diff := JsMath.Rem360(a - b + 540.0) - 180.0;
    if diff < 0.0 then -diff else diff
  }

  /** A bearing compared with itself differs by nothing. */
  lemma AngleDiffSelf(a: real)
    ensures AngleDiffDeg(a, a) == 0.0
  {
    JsMath.RemInWindow(540.0, 1);
  }

  /** For compass bearings the result is the shorter way round the circle,
      `min(|a - b|, 360 - |a - b|)`, so it lies in `[0, 180]` and does not
      depend on the order of the arguments. */
  lemma AngleDiffIsCircularDistance(a: real, b: real)
    requires 0.0 <= a < 360.0 && 0.0 <= b < 360.0
    ensures var gap := if a < b then b - a else a - b;
            AngleDiffDeg(a, b) == (if gap <= 360.0 - gap then gap else 360.0 - gap)
    ensures AngleDiffDeg(a, b) <= 180.0
    ensures AngleDiffDeg(a, b) == AngleDiffDeg(b, a)
  {
    ShorterWayRound(a, b);
    ShorterWayRound(b, a);
  }

  lemma ShorterWayRound(a: real, b: real)
    requires 0.0 <= a < 360.0 && 0.0 <= b < 360.0
    ensures var gap := if a < b then b - a else a - b;
            AngleDiffDeg(a, b) == (if gap <= 360.0 - gap then gap else 360.0 - gap)
  {
    var y := a - b + 540.0;
    if y < 360.0 {
      JsMath.RemInWindow(y, 0);
    } else if y < 720.0 {
      JsMath.RemInWindow(y, 1);
    } else {
      JsMath.RemInWindow(y, 2);
    }
  }

  /** `makeObservationFromDetection`: the observation of `detection` for
      `objectId`, with the bearing of the box centre seen from `pano`. */
  function MakeObservation(objectId: string, detection: Detection, pano: Pano, stamp: Stamp): (o: Observation)
    requires pano.imageWidth != 0.0
    ensures o.objectId == objectId && o.detectionId == detection.detectionId && o.panoId == detection.panoId
    ensures o.geometry.Some? && o.geometry.value.panoLat == pano.lat && o.geometry.value.panoLng == pano.lng
    ensures 2.0 * o.geometry.value.cx == detection.xmin + detection.xmax
    ensures o.bearingDeg == Bearing.BearingFromBox(detection.xmin, detection.xmax, pano.imageWidth, pano.heading).bearing
    ensures var g := o.geometry.value;
            g.xmin == detection.xmin && g.ymin == detection.ymin && g.xmax == detection.xmax && g.ymax == detection.ymax
    ensures o.obsId == stamp.obsId && o.geometry.value.createdAt == stamp.createdAt
  {
    var b := Bearing.BearingFromBox(detection.xmin, detection.xmax, pano.imageWidth, pano.heading);
    Observation(
      stamp.obsId, objectId, detection.detectionId, detection.panoId, b.bearing,
      Some(Geometry(detection.xmin, detection.ymin, detection.xmax, detection.ymax, b.cx, pano.lat, pano.lng, stamp.createdAt)))
  }

  /** The detections whose id is not yet claimed (the source's `assigned`
      set), in their original order. */
  function Unassigned(dets: seq<Detection>, claimed: set<string>): (r: seq<Detection>)
    ensures |r| <= |dets|
    decreases |dets|
  {
    if |dets| == 0 then []
    else
      var rest := Unassigned(dets[..|dets| - 1], claimed);
      if dets[|dets| - 1].detectionId !in claimed then rest + [dets[|dets| - 1]] else rest
  }

  /** `Unassigned` keeps exactly the detections whose id is not claimed. */
  lemma {:induction false} UnassignedMembers(dets: seq<Detection>, claimed: set<string>)
    ensures forall d :: d in Unassigned(dets, claimed) ==> d in dets && d.detectionId !in claimed
    ensures forall d :: d in dets && d.detectionId !in claimed ==> d in Unassigned(dets, claimed)
    decreases |dets|
  {
    if |dets| > 0 {
      UnassignedMembers(dets[..|dets| - 1], claimed);
      assert forall d :: d in dets ==> d in dets[..|dets| - 1] || d == dets[|dets| - 1];
    }
  }

  /** `Unassigned` read from the front: the filter the scan loops apply
      one detection at a time. */
  lemma {:induction false} UnassignedCons(d: Detection, rest: seq<Detection>, claimed: set<string>)
    ensures Unassigned([d] + rest, claimed)
            == (if d.detectionId in claimed then [] else [d]) + Unassigned(rest, claimed)
    decreases |rest|
  {
    if |rest| > 0 {
      var init := rest[..|rest| - 1];
      var last := rest[|rest| - 1];
      assert ([d] + rest)[..|rest|] == [d] + init;
      assert ([d] + rest)[|rest|] == last;
      UnassignedCons(d, init, claimed);
    } else {
      assert ([d] + rest)[..0] == [];
    }
  }

  lemma UnassignedSnoc(dets: seq<Detection>, d: Detection, claimed: set<string>)
    ensures d.detectionId !in claimed ==> Unassigned(dets + [d], claimed) == Unassigned(dets, claimed) + [d]
    ensures d.detectionId in claimed ==> Unassigned(dets + [d], claimed) == Unassigned(dets, claimed)
  {
    assert (dets + [d])[..|dets|] == dets;
  }

  /** Some observation already in the list comes from panorama `panoId`. */
  predicate UsesPano(existing: seq<Observation>, panoId: string) {
    exists i :: 0 <= i < |existing| && existing[i].panoId == panoId
  }

  /** Every observation in the list is at least `minAngleDiff` degrees away from `bearing`. */
  predicate WideOfAll(existing: seq<Observation>, bearing: real, minAngleDiff: real) {
    forall i :: 0 <= i < |existing| ==> AngleDiffDeg(existing[i].bearingDeg, bearing) >= minAngleDiff
  }

  /** `existing.some((obs) => obs.pano_id === candidate.pano_id)`, as a scan. */
  function SomeOnPano(existing: seq<Observation>, panoId: string): (b: bool)
    ensures b <==> UsesPano(existing, panoId)
    decreases |existing|
  {
    if |existing| == 0 then false
    else if existing[0].panoId == panoId then true
    else
      var b := SomeOnPano(existing[1..], panoId);
      assert forall i :: 1 <= i < |existing| ==> existing[i] == existing[1..][i - 1];
      assert b ==> exists i :: 1 <= i < |existing| && existing[i].panoId == panoId by {
        if b {
          var j :| 0 <= j < |existing[1..]| && existing[1..][j].panoId == panoId;
          assert existing[j + 1].panoId == panoId;
        }
      }
      b
  }

  /** `existing.every((obs) => angleDiffDeg(obs.bearing_deg, bearing) >= minAngleDiff)`, as a scan. */
  function EveryWide(existing: seq<Observation>, bearing: real, minAngleDiff: real): (b: bool)
    ensures b <==> WideOfAll(existing, bearing, minAngleDiff)
    decreases |existing|
  {
    if |existing| == 0 then true
    else if AngleDiffDeg(existing[0].bearingDeg, bearing) < minAngleDiff then false
    else
      var b := EveryWide(existing[1..], bearing, minAngleDiff);
      assert forall i :: 1 <= i < |existing| ==> existing[i] == existing[1..][i - 1];
      b
  }

  /** Pairwise distinct panoramas within one list of observations. */
  predicate DistinctPanos(obs: seq<Observation>) {
    forall i, j :: 0 <= i < j < |obs| ==> obs[i].panoId != obs[j].panoId
  }

  // ---------------------------------------------------------------------
  // The observation lists as a whole.
  // ---------------------------------------------------------------------

  /** `observationsByObjectId[objectId] ?? []`. */
  function ListOf(lists: OMap<string, seq<Observation>>, objectId: string): seq<Observation> {
    Get(lists, objectId).GetOr([])
  }

  /** No detection is used twice, whether by two objects or within one list. */
  ghost predicate OneUseEach(lists: OMap<string, seq<Observation>>) {
    forall a, b, i, j ::
      && (a != b || i != j)
      && 0 <= i < |ListOf(lists, a)| && 0 <= j < |ListOf(lists, b)|
      ==> ListOf(lists, a)[i].detectionId != ListOf(lists, b)[j].detectionId
  }

  /** Every detection some list uses is in `claimed`. */
  ghost predicate Covered(lists: OMap<string, seq<Observation>>, claimed: set<string>) {
    forall a, i :: 0 <= i < |ListOf(lists, a)| ==> ListOf(lists, a)[i].detectionId in claimed
  }

  /** The ids of every detection in a sequence of lists. */
  function IdsOfLists(ls: seq<seq<Observation>>): (ids: set<string>)
    decreases |ls|
  {
    if |ls| == 0 then {}
    else IdsOfLists(ls[..|ls| - 1]) + Elements(DetectionIds(ls[|ls| - 1]))
  }

  /** `IdsOfLists` holds exactly the ids of the lists' observations. */
  lemma {:induction false} IdsOfListsSpec(ls: seq<seq<Observation>>)
    ensures forall x :: x in IdsOfLists(ls) <==>
              exists n, i :: 0 <= n < |ls| && 0 <= i < |ls[n]| && ls[n][i].detectionId == x
    decreases |ls|
  {
    if |ls| > 0 {
      var init := ls[..|ls| - 1];
      var last := ls[|ls| - 1];
      IdsOfListsSpec(init);
      forall x | x in IdsOfLists(ls)
        ensures exists n, i :: 0 <= n < |ls| && 0 <= i < |ls[n]| && ls[n][i].detectionId == x
      {
        if x in IdsOfLists(init) {
          var n, i :| 0 <= n < |init| && 0 <= i < |init[n]| && init[n][i].detectionId == x;
          assert ls[n] == init[n];
        } else {
          var i :| 0 <= i < |DetectionIds(last)| && DetectionIds(last)[i] == x;
          assert ls[|ls| - 1][i].detectionId == x;
        }
      }
      forall x, n, i | 0 <= n < |ls| && 0 <= i < |ls[n]| && ls[n][i].detectionId == x
        ensures x in IdsOfLists(ls)
      {
        if n < |ls| - 1 {
          assert init[n] == ls[n];
        } else {
          assert DetectionIds(last)[i] == x;
        }
      }
    }
  }

  /** The detections the lists already use: the `assigned` set the
      assigners start from. */
  function ClaimedBy(lists: OMap<string, seq<Observation>>): (claimed: set<string>)
    ensures Covered(lists, claimed)
  {
    var claimed := IdsOfLists(Values(lists));
    IdsOfListsSpec(Values(lists));
    forall a, i | 0 <= i < |ListOf(lists, a)|
      ensures ListOf(lists, a)[i].detectionId in claimed
    {
      GetEntry(lists, a);
      var n :| 0 <= n < |lists| && lists[n] == (a, Get(lists, a).value);
      assert Values(lists)[n][i] == ListOf(lists, a)[i];
    }
    claimed
  }

  /** Nothing else is claimed: each id in `ClaimedBy` is used by some list. */
  lemma ClaimedByIsUsed(lists: OMap<string, seq<Observation>>, x: string)
    requires x in ClaimedBy(lists)
    ensures exists a, i :: 0 <= i < |ListOf(lists, a)| && ListOf(lists, a)[i].detectionId == x
  {
    var ls: seq<seq<Observation>> := Values(lists);
    IdsOfListsSpec(ls);
    var n: int, i: int :| 0 <= n < |ls| && 0 <= i < |ls[n]| && ls[n][i].detectionId == x;
    GetEntry(lists, lists[n].0);
    assert ListOf(lists, lists[n].0) == lists[n].1;
  }

  /** Writing one object's list leaves every other list as it was. */
  lemma ListOfPut(lists: OMap<string, seq<Observation>>, key: string, v: seq<Observation>, a: string)
    ensures ListOf(Put(lists, key, v), a) == if a == key then v else ListOf(lists, a)
  {
    if a == key {
      GetPutSame(lists, key, v);
    } else {
      GetPutOther(lists, key, v, a);
    }
  }

  /** Extending one list by detections nobody had claimed, each used once,
      keeps every detection used at most once. */
  lemma PutKeepsOneUse(lists: OMap<string, seq<Observation>>, key: string, v: seq<Observation>, claimed: set<string>)
    requires OneUseEach(lists) && Covered(lists, claimed)
    requires IsPrefix(ListOf(lists, key), v)
    requires forall j :: |ListOf(lists, key)| <= j < |v| ==> v[j].detectionId !in claimed
    requires forall i, j :: |ListOf(lists, key)| <= i < j < |v| ==> v[i].detectionId != v[j].detectionId
    ensures OneUseEach(Put(lists, key, v))
  {
    var r := Put(lists, key, v);
    var n := |ListOf(lists, key)|;
    forall a, b, i, j | (a != b || i != j) && 0 <= i < |ListOf(r, a)| && 0 <= j < |ListOf(r, b)|
      ensures ListOf(r, a)[i].detectionId != ListOf(r, b)[j].detectionId
    {
      ListOfPut(lists, key, v, a);
      ListOfPut(lists, key, v, b);
      var added_a := a == key && i >= n;
      var added_b := b == key && j >= n;
      if a == key && i < n {
        assert ListOf(r, a)[i] == ListOf(lists, a)[i];
      }
      if b == key && j < n {
        assert ListOf(r, b)[j] == ListOf(lists, b)[j];
      }
      if added_a && added_b {
        if i < j {
          assert ListOf(r, a)[i].detectionId != ListOf(r, b)[j].detectionId;
        } else {
          assert ListOf(r, b)[j].detectionId != ListOf(r, a)[i].detectionId;
        }
      } else if added_a {
        assert ListOf(r, b)[j].detectionId in claimed;
      } else if added_b {
        assert ListOf(r, a)[i].detectionId in claimed;
      }
    }
  }

  /** Claiming the detections a list gains keeps every used detection claimed. */
  lemma PutKeepsCovered(lists: OMap<string, seq<Observation>>, key: string, v: seq<Observation>,
                        claimed: set<string>, claimed': set<string>)
    requires Covered(lists, claimed) && claimed <= claimed'
    requires IsPrefix(ListOf(lists, key), v)
    requires forall j :: |ListOf(lists, key)| <= j < |v| ==> v[j].detectionId in claimed'
    ensures Covered(Put(lists, key, v), claimed')
  {
    var r := Put(lists, key, v);
    forall a, i | 0 <= i < |ListOf(r, a)|
      ensures ListOf(r, a)[i].detectionId in claimed'
    {
      ListOfPut(lists, key, v, a);
      if a == key && i < |ListOf(lists, key)| {
        assert ListOf(r, a)[i] == ListOf(lists, a)[i];
      }
    }
  }
}
