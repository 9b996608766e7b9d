/** The assignment half of `src/state/seedGrow.ts`: growing an observation
    list greedily from a seed (`growCluster`), choosing the best two-panorama
    seed of a cluster (`bestSeedForCluster`) and the three-way decision of
    `seedGrowAssign`. */
module SeedGrow {
  import opened Common
  import opened OrderedMap
  import opened Types
  import opened Triangulation
  import opened AssignCommon
  import opened PanoClusters

  /** The seed-grow `AutoAssignConfig`. */
  datatype Config = Config(rmsMax: real, maxShiftM: real, minAngleDiff: real, maxObsPerObject: int)

  /** What `growCluster` returns: the list and the RMS of its last solve. */
  datatype ClusterGrowth = ClusterGrowth(observations: seq<Observation>, rms: real)

  /** `canUseCandidate`: never a second observation from one panorama; with a
      positive angle threshold, the candidate must also be that far from every
      observation already in the list. */
  function CanUseCandidate(existing: seq<Observation>, candidate: Observation, minAngleDiff: real): (ok: bool)
    ensures ok <==> !UsesPano(existing, candidate.panoId)
                    && (minAngleDiff <= 0.0 || WideOfAll(existing, candidate.bearingDeg, minAngleDiff))
  {
    if SomeOnPano(existing, candidate.panoId) then false
    else if minAngleDiff <= 0.0 then true
    else EveryWide(existing, candidate.bearingDeg, minAngleDiff)
  }

  /** The `minAngleDiff <= 0` shortcut changes nothing: angle differences are
      never negative, so the full test would pass anyway. */
  lemma ShortcutIsHarmless(existing: seq<Observation>, candidate: Observation, minAngleDiff: real)
    ensures CanUseCandidate(existing, candidate, minAngleDiff)
            <==> !UsesPano(existing, candidate.panoId) && WideOfAll(existing, candidate.bearingDeg, minAngleDiff)
  {
    if minAngleDiff <= 0.0 {
      forall i | 0 <= i < |existing|
        ensures AngleDiffDeg(existing[i].bearingDeg, candidate.bearingDeg) >= minAngleDiff
      {
      }
    }
  }

  /** How far a new solution moved from the previous one; `0` when there was
      no previous solution. */
  function Shift(distance: (LatLng, LatLng) -> real, current: Option<TriangulationResult>,
                 result: TriangulationResult): real {
    match current
    case Some(c) => distance(LatLng(c.lat, c.lng), LatLng(result.lat, result.lng))
    case None => 0.0
  }

  /** `candidate` may follow `before`: it passes `canUseCandidate`, the list
      with it solves, and the solution is within the RMS bound and close
      enough to the solution of `before` alone. */
  predicate Acceptable(o: Oracles, config: Config, before: seq<Observation>, candidate: Observation) {
    && CanUseCandidate(before, candidate, config.minAngleDiff)
    && var t := Triangulate(o.solve, before + [candidate]);
       && t.Some?
       && t.value.rms <= config.rmsMax
       && Shift(o.distance, Triangulate(o.solve, before), t.value) <= config.maxShiftM
  }

  /** An accepted candidate and the solution of the list that includes it. */
  datatype Accepted = Accepted(observation: Observation, result: TriangulationResult)

  /** One iteration of the `growCluster` loop after the length check: the
      candidate observation of `det`, if it is accepted. */
  function TryCandidate(st: AssignState, o: Oracles, config: Config, stamp: Stamp, owner: Option<string>,
                        obs: seq<Observation>, current: Option<TriangulationResult>, det: Detection): (r: Option<Accepted>)
    requires WidthsNonZero(st.panosById)
    requires current == Triangulate(o.solve, obs)
    ensures r.Some? ==> Get(st.panosById, det.panoId).Some?
    ensures r.Some? ==> r.value.observation
                        == MakeObservation(owner.GetOr(det.panoId), det, Get(st.panosById, det.panoId).value, stamp)
    ensures r.Some? ==> Acceptable(o, config, obs, r.value.observation)
                        && Triangulate(o.solve, obs + [r.value.observation]) == Some(r.value.result)
    ensures r.None? && Get(st.panosById, det.panoId).Some? ==>
              !Acceptable(o, config, obs, MakeObservation(owner.GetOr(det.panoId), det, Get(st.panosById, det.panoId).value, stamp))
  {
    match Get(st.panosById, det.panoId)
    case None => None
    case Some(pano) =>
      var candidate := MakeObservation(owner.GetOr(det.panoId), det, pano, stamp);
      if !CanUseCandidate(obs, candidate, config.minAngleDiff) then None
      else
        match Triangulate(o.solve, obs + [candidate])
        case None => None
        case Some(result) =>
          var shift := Shift(o.distance, current, result);
          if result.rms > config.rmsMax then None
          else if shift > config.maxShiftM then None
          else Some(Accepted(candidate, result))
  }

  /** `rs` is `obs` followed by acceptable observations, each made from one
      of the detections `ids` names. */
  predicate Extends(o: Oracles, config: Config, obs: seq<Observation>, rs: seq<Observation>, ids: seq<string>) {
    && IsPrefix(obs, rs)
    && (forall k :: |obs| <= k < |rs| ==> Acceptable(o, config, rs[..k], rs[k]))
    && (forall k :: |obs| <= k < |rs| ==> rs[k].detectionId in ids)
  }

  /** An extension of `obs + [c]` is an extension of `obs` when `c` was acceptable. */
  lemma ExtendsStep(o: Oracles, config: Config, obs: seq<Observation>, c: Observation, rs: seq<Observation>, ids: seq<string>)
    requires Acceptable(o, config, obs, c) && c.detectionId in ids
    requires Extends(o, config, obs + [c], rs, ids)
    ensures Extends(o, config, obs, rs, ids)
  {
    assert rs[..|obs|] == (obs + [c])[..|obs|];
    assert rs[|obs|] == c;
    assert rs[..|obs|] == obs;
  }

  /** Naming more detections keeps an extension an extension. */
  lemma ExtendsWiden(o: Oracles, config: Config, obs: seq<Observation>, rs: seq<Observation>, ids: seq<string>, more: seq<string>)
    requires Extends(o, config, obs, rs, ids)
    requires forall x :: x in ids ==> x in more
    ensures Extends(o, config, obs, rs, more)
  {
  }

  /** The `for (const det of candidateDetections)` loop of `growCluster`,
      from `obs` and its solution `current` on. */
  function Grow(st: AssignState, o: Oracles, config: Config, stamp: Stamp, owner: Option<string>,
                obs: seq<Observation>, current: Option<TriangulationResult>, cands: seq<Detection>): (r: ClusterGrowth)
    requires WidthsNonZero(st.panosById)
    requires current == Triangulate(o.solve, obs)
    ensures Extends(o, config, obs, r.observations, DetectionIdsOfDetections(cands))
    ensures |r.observations| <= Max(|obs|, config.maxObsPerObject)
    ensures r.rms == RmsOr0(Triangulate(o.solve, r.observations))
    decreases |cands|
  {
    if |cands| == 0 || |obs| >= config.maxObsPerObject then
      assert obs[..|obs|] == obs;
      ClusterGrowth(obs, RmsOr0(current))
    else
      var ids := DetectionIdsOfDetections(cands);
      assert forall x :: x in DetectionIdsOfDetections(cands[1..]) ==> x in ids by {
        assert DetectionIdsOfDetections(cands) == [cands[0].detectionId] + DetectionIdsOfDetections(cands[1..]);
      }
      match TryCandidate(st, o, config, stamp, owner, obs, current, cands[0])
      case None =>
        var r := Grow(st, o, config, stamp, owner, obs, current, cands[1..]);
        ExtendsWiden(o, config, obs, r.observations, DetectionIdsOfDetections(cands[1..]), ids);
        r
      case Some(acc) =>
        var r := Grow(st, o, config, stamp, owner, obs + [acc.observation], Some(acc.result), cands[1..]);
        ExtendsWiden(o, config, obs + [acc.observation], r.observations, DetectionIdsOfDetections(cands[1..]), ids);
        ExtendsStep(o, config, obs, acc.observation, r.observations, ids);
        r
  }

  /** What one more candidate detection does to a grown list: nothing once
      the list is full or when its panorama is unknown; otherwise its
      observation is appended exactly when it is acceptable after the list. */
  function Considered(st: AssignState, o: Oracles, config: Config, stamp: Stamp, owner: Option<string>,
                      rs: seq<Observation>, det: Detection): seq<Observation>
    requires WidthsNonZero(st.panosById)
  {
    if |rs| >= config.maxObsPerObject then rs
    else match Get(st.panosById, det.panoId)
      case None => rs
      case Some(pano) =>
        var c := MakeObservation(owner.GetOr(det.panoId), det, pano, stamp);
        if Acceptable(o, config, rs, c) then rs + [c] else rs
  }

  /** Growing over one more candidate is growing over the others and then
      considering that candidate against the list they left: a candidate is
      skipped exactly when it is unknown, unacceptable at its turn, or comes
      after the list is full. */
  lemma {:induction false} GrowSnoc(st: AssignState, o: Oracles, config: Config, stamp: Stamp, owner: Option<string>,
                                    obs: seq<Observation>, cands: seq<Detection>, det: Detection)
    requires WidthsNonZero(st.panosById)
    ensures Grow(st, o, config, stamp, owner, obs, Triangulate(o.solve, obs), cands + [det]).observations
            == Considered(st, o, config, stamp, owner,
                          Grow(st, o, config, stamp, owner, obs, Triangulate(o.solve, obs), cands).observations, det)
    decreases |cands|
  {
    var current := Triangulate(o.solve, obs);
    if |cands| == 0 {
      assert [det][1..] == [];
      assert cands + [det] == [det];
    } else if |obs| < config.maxObsPerObject {
      assert (cands + [det])[0] == cands[0];
      assert (cands + [det])[1..] == cands[1..] + [det];
      match TryCandidate(st, o, config, stamp, owner, obs, current, cands[0])
      case None =>
        GrowSnoc(st, o, config, stamp, owner, obs, cands[1..], det);
      case Some(acc) =>
        GrowSnoc(st, o, config, stamp, owner, obs + [acc.observation], cands[1..], det);
    }
  }

  /** The object a seed belongs to, when the seed is not empty. */
  function Owner(seed: seq<Observation>): (r: Option<string>)
    ensures r.Some? <==> |seed| > 0
    ensures |seed| > 0 ==> r.value == seed[0].objectId
  {
    if |seed| > 0 then Some(seed[0].objectId) else None
  }

  /** `growCluster`: extend `seed` by the candidates, in order, that pass
      every test; candidate observations belong to the seed's object. */
  function GrowCluster(st: AssignState, o: Oracles, config: Config, stamp: Stamp,
                       seed: seq<Observation>, cands: seq<Detection>): (r: ClusterGrowth)
    requires WidthsNonZero(st.panosById)
    ensures Extends(o, config, seed, r.observations, DetectionIdsOfDetections(cands))
    ensures |r.observations| <= Max(|seed|, config.maxObsPerObject)
    ensures r.rms == RmsOr0(Triangulate(o.solve, r.observations))
  {
    Grow(st, o, config, stamp, Owner(seed), seed, Triangulate(o.solve, seed), cands)
  }

  /** `growCluster` is the seed when there is nothing to consider, and each
      further candidate is considered, in order, against the list grown so
      far: together these determine the result for every list of candidates. */
  lemma GrowClusterStep(st: AssignState, o: Oracles, config: Config, stamp: Stamp,
                        seed: seq<Observation>, cands: seq<Detection>, det: Detection)
    requires WidthsNonZero(st.panosById)
    ensures GrowCluster(st, o, config, stamp, seed, []).observations == seed
    ensures GrowCluster(st, o, config, stamp, seed, cands + [det]).observations
            == Considered(st, o, config, stamp, Owner(seed), GrowCluster(st, o, config, stamp, seed, cands).observations, det)
  {
    GrowSnoc(st, o, config, stamp, Owner(seed), seed, cands, det);
  }

  /** Growing never puts two observations of one panorama into the list. */
  lemma GrowKeepsPanosDistinct(st: AssignState, o: Oracles, config: Config, stamp: Stamp,
                               seed: seq<Observation>, cands: seq<Detection>)
    requires WidthsNonZero(st.panosById)
    requires DistinctPanos(seed)
    ensures DistinctPanos(GrowCluster(st, o, config, stamp, seed, cands).observations)
  {
    var rs := GrowCluster(st, o, config, stamp, seed, cands).observations;
    forall i, j | 0 <= i < j < |rs|
      ensures rs[i].panoId != rs[j].panoId
    {
      if j >= |seed| {
        assert Acceptable(o, config, rs[..j], rs[j]);
        assert !UsesPano(rs[..j], rs[j].panoId);
        assert rs[..j][i] == rs[i];
      } else {
        assert rs[..|seed|] == seed;
        assert seed[i] == rs[i] && seed[j] == rs[j];
      }
    }
  }
}
