/** The older greedy assigner of `src/state/autoAssign.ts`. Each round scans
    the free detections, in `detectionsById` order and at most
    `CandidateCap` of them, for the usable candidate whose trial
    triangulation has the lowest RMS, and appends it; the detections it takes
    join one `taken` set shared by every object of the call. */
module AutoAssign {
  import opened Common
  import opened OrderedMap
  import opened Types
  import opened Triangulation
  import opened AssignCommon
  import SeedGrow

  /** `AutoAssignConfig`. */
  datatype Config = Config(rmsMax: real, maxObsPerObject: int, minAngleDiff: real)

  /** The default `candidateCap`: how many free detections one round tests. */
  const CandidateCap: nat := 500

  /** This file's `canUseCandidate`: no second observation from a panorama,
      and every bearing at least `minAngleDiff` away. Anything may join an
      empty list. */
  function CanUseCandidate(existing: seq<Observation>, candidate: Observation, minAngleDiff: real): (ok: bool)
    ensures ok <==> !UsesPano(existing, candidate.panoId) && WideOfAll(existing, candidate.bearingDeg, minAngleDiff)
    ensures |existing| == 0 ==> ok
  {
    !SomeOnPano(existing, candidate.panoId) && EveryWide(existing, candidate.bearingDeg, minAngleDiff)
  }

  /** The two files' `canUseCandidate` agree on every input, although only
      the seed-grow one short-cuts a non-positive threshold. */
  lemma CanUseCandidateAgrees(existing: seq<Observation>, candidate: Observation, minAngleDiff: real)
    ensures CanUseCandidate(existing, candidate, minAngleDiff)
            == SeedGrow.CanUseCandidate(existing, candidate, minAngleDiff)
  {
    SeedGrow.ShortcutIsHarmless(existing, candidate, minAngleDiff);
  }

  /** `simulateRms`: the RMS of the list with the candidate appended, or
      `Infinity` when that list is too short or does not solve. */
  function SimulateRms(solve: Solver, existing: seq<Observation>, candidate: Observation): (rms: ExtReal)
    ensures |existing| == 0 ==> rms == Infinity
    ensures rms.Finite? <==> |existing| >= 1 && solve(existing + [candidate]).Some?
    ensures rms.Finite? ==> rms.r == solve(existing + [candidate]).value.rms && rms.r >= 0.0
  {
    var trial := existing + [candidate];
    if |trial| < 2 then Infinity
    else
      match Triangulate(solve, trial)
      case Some(result) => Finite(result.rms)
      case None => Infinity
  }

  /** A usable candidate and the RMS it is ranked by. */
  datatype Candidate = Candidate(observation: Observation, rms: ExtReal)

  /** What detection `d` offers a round over `existing`: its observation when
      its panorama is known, it passes `canUseCandidate`, and (for a list
      that would have two or more entries) its trial RMS is within
      `rmsMax`. An offer to an empty list always has RMS `Infinity`. */
  function Offer(st: AssignState, solve: Solver, config: Config, stamp: Stamp, objectId: string,
                 existing: seq<Observation>, d: Detection): (r: Option<Candidate>)
    requires WidthsNonZero(st.panosById)
    ensures r.Some? ==> Get(st.panosById, d.panoId).Some?
    ensures r.Some? ==> r.value.observation == MakeObservation(objectId, d, Get(st.panosById, d.panoId).value, stamp)
    ensures r.Some? ==> CanUseCandidate(existing, r.value.observation, config.minAngleDiff)
    ensures r.Some? ==> r.value.rms == SimulateRms(solve, existing, r.value.observation)
    ensures r.Some? && |existing| >= 1 ==> r.value.rms.Finite? && r.value.rms.r <= config.rmsMax
    ensures r.None? && Get(st.panosById, d.panoId).Some? ==>
              var c := MakeObservation(objectId, d, Get(st.panosById, d.panoId).value, stamp);
              !CanUseCandidate(existing, c, config.minAngleDiff)
              || (|existing| >= 1 && SimulateRms(solve, existing, c).Exceeds(config.rmsMax))
  {
    match Get(st.panosById, d.panoId)
    case None => None
    case Some(pano) =>
      var c := MakeObservation(objectId, d, pano, stamp);
      if !CanUseCandidate(existing, c, config.minAngleDiff) then None
      else
        var rms := SimulateRms(solve, existing, c);
        if |existing| + 1 >= 2 && rms.Exceeds(config.rmsMax) then None
        else Some(Candidate(c, rms))
  }

  /** The test `!bestCandidate || rms < bestRms`. */
  predicate Improves(c: Candidate, best: Option<Candidate>) {
    best.None? || c.rms.Less(best.value.rms)
  }

  /** The inner `for (const det of availableDetections)` loop, as written:
      claimed detections are skipped without being counted; the loop stops
      at the first free detection once `tested` reaches the cap; every other
      free detection is counted, even one whose panorama is unknown. */
  function Scan(st: AssignState, solve: Solver, config: Config, stamp: Stamp, objectId: string,
                existing: seq<Observation>, taken: set<string>, dets: seq<Detection>,
                best: Option<Candidate>, tested: nat): (r: Option<Candidate>)
    requires WidthsNonZero(st.panosById)
    ensures r != best ==> r.Some? && r.value.observation.detectionId !in taken
    decreases |dets|
  {
    if |dets| == 0 then best
    else
      var d := dets[0];
      if d.detectionId in taken then
        Scan(st, solve, config, stamp, objectId, existing, taken, dets[1..], best, tested)
      else if tested >= CandidateCap then best
      else
        match Get(st.panosById, d.panoId)
        case None => Scan(st, solve, config, stamp, objectId, existing, taken, dets[1..], best, tested + 1)
        case Some(pano) =>
          var candidate := MakeObservation(objectId, d, pano, stamp);
          if !CanUseCandidate(existing, candidate, config.minAngleDiff) then
            Scan(st, solve, config, stamp, objectId, existing, taken, dets[1..], best, tested + 1)
          else
            var rms := SimulateRms(solve, existing, candidate);
            var prospectiveCount := |existing| + 1;
            if prospectiveCount >= 2 && rms.Exceeds(config.rmsMax) then
              Scan(st, solve, config, stamp, objectId, existing, taken, dets[1..], best, tested + 1)
            else if Improves(Candidate(candidate, rms), best) then
              Scan(st, solve, config, stamp, objectId, existing, taken, dets[1..], Some(Candidate(candidate, rms)), tested + 1)
            else
              Scan(st, solve, config, stamp, objectId, existing, taken, dets[1..], best, tested + 1)
  }

  /** One round: the candidate the scan keeps, starting with none. */
  function Round(st: AssignState, solve: Solver, config: Config, stamp: Stamp, objectId: string,
                 existing: seq<Observation>, taken: set<string>, available: seq<Detection>): (r: Option<Candidate>)
    requires WidthsNonZero(st.panosById)
    ensures r.Some? ==> r.value.observation.detectionId !in taken
  {
    Scan(st, solve, config, stamp, objectId, existing, taken, available, None, 0)
  }

  // ---------------------------------------------------------------------
  // What a round picks, stated without the loop.
  // ---------------------------------------------------------------------

  /** The first `n` elements, or all of them. */
  function Take<T>(s: seq<T>, n: nat): (r: seq<T>)
    ensures |r| == if |s| < n then |s| else n
    ensures IsPrefix(r, s)
  {
    if |s| <= n then s else s[..n]
  }

  lemma TakeCons<T>(x: T, s: seq<T>, n: nat)
    requires n > 0
    ensures Take([x] + s, n) == [x] + Take(s, n - 1)
  {
  }

  /** The detections a round weighs: the first `CandidateCap` free ones. */
  function Window(available: seq<Detection>, taken: set<string>): seq<Detection> {
    Take(Unassigned(available, taken), CandidateCap)
  }

  /** The offers of a list of detections, in order. */
  function Offers(st: AssignState, solve: Solver, config: Config, stamp: Stamp, objectId: string,
                  existing: seq<Observation>, ds: seq<Detection>): (r: seq<Option<Candidate>>)
    requires WidthsNonZero(st.panosById)
    ensures |r| == |ds|
    ensures forall i :: 0 <= i < |ds| ==> r[i] == Offer(st, solve, config, stamp, objectId, existing, ds[i])
    decreases |ds|
  {
    if |ds| == 0 then []
    else [Offer(st, solve, config, stamp, objectId, existing, ds[0])]
         + Offers(st, solve, config, stamp, objectId, existing, ds[1..])
  }

  /** `r` is the first offer of lowest RMS: nothing when there is no offer;
      otherwise an offer strictly better than every earlier offer and not
      beaten by any later one. */
  predicate IsFirstMin(offers: seq<Option<Candidate>>, r: Option<Candidate>) {
    match r
    case None => forall j :: 0 <= j < |offers| ==> offers[j].None?
    case Some(c) => exists i: nat :: i < |offers| && FirstMinAt(offers, c, i)
  }

  /** `c` is offer `i`, strictly better than every earlier offer and not
      beaten by any later one. */
  predicate FirstMinAt(offers: seq<Option<Candidate>>, c: Candidate, i: nat) {
    && i < |offers| && offers[i] == Some(c)
    && (forall j :: 0 <= j < i && offers[j].Some? ==> c.rms.Less(offers[j].value.rms))
    && (forall j :: i < j < |offers| && offers[j].Some? ==> !offers[j].value.rms.Less(c.rms))
  }

  /** The running choice after one more offer. */
  function Keep(best: Option<Candidate>, offer: Option<Candidate>): Option<Candidate> {
    if offer.Some? && Improves(offer.value, best) then offer else best
  }

  /** The running choice over `offers`, from `best` on. */
  function FirstMin(offers: seq<Option<Candidate>>, best: Option<Candidate>): Option<Candidate>
    decreases |offers|
  {
    if |offers| == 0 then best else FirstMin(offers[1..], Keep(best, offers[0]))
  }

  /** One more offer keeps the running choice the first minimum. */
  lemma KeepStep(pre: seq<Option<Candidate>>, best: Option<Candidate>, offer: Option<Candidate>)
    requires IsFirstMin(pre, best)
    ensures IsFirstMin(pre + [offer], Keep(best, offer))
  {
    var all := pre + [offer];
    match best
    case None =>
      if offer.Some? {
        assert FirstMinAt(all, offer.value, |pre|);
      }
    case Some(b) =>
      var i: nat :| FirstMinAt(pre, b, i);
      if offer.Some? && Improves(offer.value, best) {
        NewFirstMin(pre, b, i, offer.value);
      } else {
        OldFirstMin(pre, b, i, offer);
      }
  }

  /** An offer no better than the first minimum so far leaves it in place. */
  lemma OldFirstMin(pre: seq<Option<Candidate>>, b: Candidate, i: nat, offer: Option<Candidate>)
    requires FirstMinAt(pre, b, i) && !(offer.Some? && offer.value.rms.Less(b.rms))
    ensures FirstMinAt(pre + [offer], b, i)
  {
    assert forall j :: 0 <= j < |pre| ==> (pre + [offer])[j] == pre[j];
  }

  /** An offer strictly better than the first minimum so far is the new one. */
  lemma NewFirstMin(pre: seq<Option<Candidate>>, b: Candidate, i: nat, c: Candidate)
    requires FirstMinAt(pre, b, i) && c.rms.Less(b.rms)
    ensures FirstMinAt(pre + [Some(c)], c, |pre|)
  {
    var all := pre + [Some(c)];
    forall j | 0 <= j < |pre| && all[j].Some?
      ensures c.rms.Less(all[j].value.rms)
    {
      assert all[j] == pre[j];
      LessThenNotLess(c.rms, b.rms, pre[j].value.rms);
    }
  }


  /** `Less` is a strict total order, so `a < b <= c` gives `a < c`. */
  lemma LessThenNotLess(a: ExtReal, b: ExtReal, c: ExtReal)
    requires a.Less(b)
    requires b.Less(c) || !c.Less(b)
    ensures a.Less(c)
  {
  }

  lemma {:induction false} FirstMinFrom(pre: seq<Option<Candidate>>, best: Option<Candidate>, offers: seq<Option<Candidate>>)
    requires IsFirstMin(pre, best)
    ensures IsFirstMin(pre + offers, FirstMin(offers, best))
    decreases |offers|
  {
    if |offers| == 0 {
      assert pre + offers == pre;
    } else {
      KeepStep(pre, best, offers[0]);
      FirstMinFrom(pre + [offers[0]], Keep(best, offers[0]), offers[1..]);
      assert (pre + [offers[0]]) + offers[1..] == pre + offers;
    }
  }

  /** The loop as written keeps the running choice over the offers of the
      free detections it still may test. */
  lemma {:induction false} ScanIsFirstMin(st: AssignState, solve: Solver, config: Config, stamp: Stamp, objectId: string,
                                          existing: seq<Observation>, taken: set<string>, dets: seq<Detection>,
                                          best: Option<Candidate>, tested: nat)
    requires WidthsNonZero(st.panosById)
    requires tested <= CandidateCap
    ensures Scan(st, solve, config, stamp, objectId, existing, taken, dets, best, tested)
            == FirstMin(Offers(st, solve, config, stamp, objectId, existing,
                               Take(Unassigned(dets, taken), CandidateCap - tested)), best)
    decreases |dets|
  {
    if |dets| == 0 {
      assert Unassigned(dets, taken) == [];
    } else if dets[0].detectionId in taken {
      ScanIsFirstMin(st, solve, config, stamp, objectId, existing, taken, dets[1..], best, tested);
      ScanSkip(st, solve, config, stamp, objectId, existing, taken, dets, best, tested);
    } else if tested < CandidateCap {
      var offer := Offer(st, solve, config, stamp, objectId, existing, dets[0]);
      ScanIsFirstMin(st, solve, config, stamp, objectId, existing, taken, dets[1..], Keep(best, offer), tested + 1);
      ScanTest(st, solve, config, stamp, objectId, existing, taken, dets, best, tested);
    } else {
      UnassignedCons(dets[0], dets[1..], taken);
      assert dets == [dets[0]] + dets[1..];
      assert Take(Unassigned(dets, taken), CandidateCap - tested) == [];
    }
  }

  /** A claimed detection is skipped, and is not in the window either. */
  lemma ScanSkip(st: AssignState, solve: Solver, config: Config, stamp: Stamp, objectId: string,
                 existing: seq<Observation>, taken: set<string>, dets: seq<Detection>,
                 best: Option<Candidate>, tested: nat)
    requires WidthsNonZero(st.panosById)
    requires |dets| > 0 && dets[0].detectionId in taken && tested <= CandidateCap
    requires Scan(st, solve, config, stamp, objectId, existing, taken, dets[1..], best, tested)
             == FirstMin(Offers(st, solve, config, stamp, objectId, existing,
                                Take(Unassigned(dets[1..], taken), CandidateCap - tested)), best)
    ensures Scan(st, solve, config, stamp, objectId, existing, taken, dets, best, tested)
            == FirstMin(Offers(st, solve, config, stamp, objectId, existing,
                               Take(Unassigned(dets, taken), CandidateCap - tested)), best)
  {
    assert Unassigned(dets, taken) == Unassigned(dets[1..], taken) by {
      UnassignedCons(dets[0], dets[1..], taken);
      assert dets == [dets[0]] + dets[1..];
    }
    assert Scan(st, solve, config, stamp, objectId, existing, taken, dets, best, tested)
           == Scan(st, solve, config, stamp, objectId, existing, taken, dets[1..], best, tested);
  }

  /** A free detection under the cap is tested: the window starts with it
      and its offer is folded into the running choice. */
  lemma ScanTest(st: AssignState, solve: Solver, config: Config, stamp: Stamp, objectId: string,
                 existing: seq<Observation>, taken: set<string>, dets: seq<Detection>,
                 best: Option<Candidate>, tested: nat)
    requires WidthsNonZero(st.panosById)
    requires |dets| > 0 && dets[0].detectionId !in taken && tested < CandidateCap
    requires var offer := Offer(st, solve, config, stamp, objectId, existing, dets[0]);
             Scan(st, solve, config, stamp, objectId, existing, taken, dets[1..], Keep(best, offer), tested + 1)
             == FirstMin(Offers(st, solve, config, stamp, objectId, existing,
                                Take(Unassigned(dets[1..], taken), CandidateCap - (tested + 1))), Keep(best, offer))
    ensures Scan(st, solve, config, stamp, objectId, existing, taken, dets, best, tested)
            == FirstMin(Offers(st, solve, config, stamp, objectId, existing,
                               Take(Unassigned(dets, taken), CandidateCap - tested)), best)
  {
    var d := dets[0];
    var rest := dets[1..];
    var n := CandidateCap - tested;
    var window := Take(Unassigned(rest, taken), n - 1);
    WindowCons(d, rest, taken, n);
    assert dets == [d] + rest;
    OffersCons(st, solve, config, stamp, objectId, existing, d, window);
    FirstMinCons(Offer(st, solve, config, stamp, objectId, existing, d),
                 Offers(st, solve, config, stamp, objectId, existing, window), best);
    ScanStep(st, solve, config, stamp, objectId, existing, taken, dets, best, tested);
  }

  lemma WindowCons(d: Detection, rest: seq<Detection>, taken: set<string>, n: nat)
    requires d.detectionId !in taken && n > 0
    ensures Take(Unassigned([d] + rest, taken), n) == [d] + Take(Unassigned(rest, taken), n - 1)
  {
    UnassignedCons(d, rest, taken);
    TakeCons(d, Unassigned(rest, taken), n);
  }

  lemma FirstMinCons(offer: Option<Candidate>, offers: seq<Option<Candidate>>, best: Option<Candidate>)
    ensures FirstMin([offer] + offers, best) == FirstMin(offers, Keep(best, offer))
  {
    assert ([offer] + offers)[1..] == offers;
  }

  lemma OffersCons(st: AssignState, solve: Solver, config: Config, stamp: Stamp, objectId: string,
                   existing: seq<Observation>, d: Detection, ds: seq<Detection>)
    requires WidthsNonZero(st.panosById)
    ensures Offers(st, solve, config, stamp, objectId, existing, [d] + ds)
            == [Offer(st, solve, config, stamp, objectId, existing, d)] + Offers(st, solve, config, stamp, objectId, existing, ds)
  {
    assert ([d] + ds)[1..] == ds;
  }

  /** Testing a free detection under the cap folds its offer into the
      running choice. */
  lemma ScanStep(st: AssignState, solve: Solver, config: Config, stamp: Stamp, objectId: string,
                 existing: seq<Observation>, taken: set<string>, dets: seq<Detection>,
                 best: Option<Candidate>, tested: nat)
    requires WidthsNonZero(st.panosById)
    requires |dets| > 0 && dets[0].detectionId !in taken && tested < CandidateCap
    ensures Scan(st, solve, config, stamp, objectId, existing, taken, dets, best, tested)
            == Scan(st, solve, config, stamp, objectId, existing, taken, dets[1..],
                    Keep(best, Offer(st, solve, config, stamp, objectId, existing, dets[0])), tested + 1)
  {
  }

  /** A round keeps the first free detection of lowest trial RMS among the
      first `CandidateCap` free detections; with an empty list every offer
      has RMS `Infinity`, so that is the first usable one. */
  lemma RoundIsFirstMin(st: AssignState, solve: Solver, config: Config, stamp: Stamp, objectId: string,
                        existing: seq<Observation>, taken: set<string>, available: seq<Detection>)
    requires WidthsNonZero(st.panosById)
    ensures IsFirstMin(Offers(st, solve, config, stamp, objectId, existing, Window(available, taken)),
                       Round(st, solve, config, stamp, objectId, existing, taken, available))
  {
    ScanIsFirstMin(st, solve, config, stamp, objectId, existing, taken, available, None, 0);
    var offers := Offers(st, solve, config, stamp, objectId, existing, Window(available, taken));
    FirstMinFrom([], None, offers);
    assert [] + offers == offers;
  }

  // ---------------------------------------------------------------------
  // greedyAssign: rounds until the list is full or nothing qualifies.
  // ---------------------------------------------------------------------

  /** The ids of the observations at positions `from` up to `to`. */
  function IdsBetween(obs: seq<Observation>, from: nat, to: nat): set<string>
    requires from <= to <= |obs|
  {
    Elements(DetectionIds(obs[from..to]))
  }

  lemma IdsBetweenHas(obs: seq<Observation>, from: nat, to: nat, k: nat)
    requires from <= k < to <= |obs|
    ensures obs[k].detectionId in IdsBetween(obs, from, to)
  {
    assert obs[from..to][k - from] == obs[k];
    assert DetectionIds(obs[from..to])[k - from] == obs[k].detectionId;
  }

  lemma {:induction false} IdsBetweenSplit(obs: seq<Observation>, from: nat, to: nat)
    requires from < to <= |obs|
    ensures IdsBetween(obs, from, to) == {obs[from].detectionId} + IdsBetween(obs, from + 1, to)
  {
    var s := obs[from..to];
    assert s == [obs[from]] + obs[from + 1..to];
    DetectionIdsAppend([obs[from]], obs[from + 1..to]);
    assert DetectionIds([obs[from]]) == [obs[from].detectionId];
  }

  /** The loop state of `greedyAssign`: the object's list and the claimed
      detection ids (the source's `assigned`). */
  datatype Progress = Progress(observations: seq<Observation>, taken: set<string>)

  /** Entry `k` of `rs` is what the round over `rs[..k]` picked, with the
      detections claimed before it plus those of `rs[from..k]`. */
  ghost predicate PickedAt(st: AssignState, solve: Solver, config: Config, stamp: Stamp, objectId: string,
                           available: seq<Detection>, taken: set<string>, rs: seq<Observation>, from: nat, k: nat)
    requires WidthsNonZero(st.panosById)
    requires from <= k < |rs|
  {
    var r := Round(st, solve, config, stamp, objectId, rs[..k], taken + IdsBetween(rs, from, k), available);
    r.Some? && r.value.observation == rs[k]
  }

  /** `rs` is `existing` followed, entry by entry, by the rounds' picks. */
  ghost predicate Picks(st: AssignState, solve: Solver, config: Config, stamp: Stamp, objectId: string,
                        available: seq<Detection>, existing: seq<Observation>, taken: set<string>, rs: seq<Observation>)
    requires WidthsNonZero(st.panosById)
  {
    && IsPrefix(existing, rs)
    && forall k :: |existing| <= k < |rs| ==>
         PickedAt(st, solve, config, stamp, objectId, available, taken, rs, |existing|, k)
  }

  /** Stopping at once picks nothing and claims nothing. */
  lemma PicksNothing(st: AssignState, solve: Solver, config: Config, stamp: Stamp, objectId: string,
                     available: seq<Detection>, existing: seq<Observation>, taken: set<string>)
    requires WidthsNonZero(st.panosById)
    ensures Picks(st, solve, config, stamp, objectId, available, existing, taken, existing)
    ensures taken + IdsBetween(existing, |existing|, |existing|) == taken
  {
    assert IdsBetween(existing, |existing|, |existing|) == {};
    assert existing[..|existing|] == existing;
  }

  /** A round's pick followed by later picks is a run of picks. */
  lemma PicksStep(st: AssignState, solve: Solver, config: Config, stamp: Stamp, objectId: string,
                  available: seq<Detection>, existing: seq<Observation>, taken: set<string>,
                  c: Candidate, rs: seq<Observation>)
    requires WidthsNonZero(st.panosById)
    requires Round(st, solve, config, stamp, objectId, existing, taken, available) == Some(c)
    requires Picks(st, solve, config, stamp, objectId, available, existing + [c.observation],
                   taken + {c.observation.detectionId}, rs)
    ensures Picks(st, solve, config, stamp, objectId, available, existing, taken, rs)
    ensures taken + {c.observation.detectionId} + IdsBetween(rs, |existing| + 1, |rs|)
            == taken + IdsBetween(rs, |existing|, |rs|)
  {
    var n := |existing|;
    assert rs[..n] == (existing + [c.observation])[..n] == existing;
    assert rs[n] == c.observation;
    assert rs[..n + 1] == existing + [c.observation];
    assert IdsBetween(rs, n, n) == {};
    forall k | n < k <= |rs|
      ensures taken + {c.observation.detectionId} + IdsBetween(rs, n + 1, k) == taken + IdsBetween(rs, n, k)
    {
      IdsBetweenSplit(rs, n, k);
    }
    forall k | n <= k < |rs|
      ensures PickedAt(st, solve, config, stamp, objectId, available, taken, rs, n, k)
    {
      if k > n {
        assert PickedAt(st, solve, config, stamp, objectId, available, taken + {c.observation.detectionId}, rs, n + 1, k);
        IdsBetweenSplit(rs, n, k);
        assert taken + {c.observation.detectionId} + IdsBetween(rs, n + 1, k) == taken + IdsBetween(rs, n, k);
      } else {
        assert taken + IdsBetween(rs, n, k) == taken;
      }
    }
  }

  /** The `while (existing.length < config.maxObsPerObject)` loop: each
      round appends its pick and claims its detection, until the list is
      full or a round finds nothing. */
  function Greedy(st: AssignState, solve: Solver, config: Config, stamp: Stamp, objectId: string,
                  available: seq<Detection>, existing: seq<Observation>, taken: set<string>): (p: Progress)
    requires WidthsNonZero(st.panosById)
    ensures Picks(st, solve, config, stamp, objectId, available, existing, taken, p.observations)
    ensures |p.observations| <= Max(|existing|, config.maxObsPerObject)
    ensures p.taken == taken + IdsBetween(p.observations, |existing|, |p.observations|)
    ensures |p.observations| < config.maxObsPerObject ==>
              Round(st, solve, config, stamp, objectId, p.observations, p.taken, available).None?
    decreases config.maxObsPerObject - |existing|
  {
    if |existing| >= config.maxObsPerObject then
      PicksNothing(st, solve, config, stamp, objectId, available, existing, taken);
      Progress(existing, taken)
    else
      match Round(st, solve, config, stamp, objectId, existing, taken, available)
      case None =>
        PicksNothing(st, solve, config, stamp, objectId, available, existing, taken);
        Progress(existing, taken)
      case Some(c) =>
        var p := Greedy(st, solve, config, stamp, objectId, available, existing + [c.observation],
                        taken + {c.observation.detectionId});
        PicksStep(st, solve, config, stamp, objectId, available, existing, taken, c, p.observations);
        p
  }

  /** The ids the picks of a run add were free when picked, and distinct. */
  lemma PicksAreFresh(st: AssignState, solve: Solver, config: Config, stamp: Stamp, objectId: string,
                      available: seq<Detection>, existing: seq<Observation>, taken: set<string>, rs: seq<Observation>)
    requires WidthsNonZero(st.panosById)
    requires Picks(st, solve, config, stamp, objectId, available, existing, taken, rs)
    ensures forall k :: |existing| <= k < |rs| ==> rs[k].detectionId !in taken
    ensures forall i, k :: |existing| <= i < k < |rs| ==> rs[i].detectionId != rs[k].detectionId
  {
    var n := |existing|;
    forall k | n <= k < |rs|
      ensures rs[k].detectionId !in taken + IdsBetween(rs, n, k)
    {
      assert PickedAt(st, solve, config, stamp, objectId, available, taken, rs, n, k);
    }
    forall i, k | n <= i < k < |rs|
      ensures rs[i].detectionId != rs[k].detectionId
    {
      IdsBetweenHas(rs, n, k, i);
    }
  }

  /** The lists and the claimed set after some objects' rounds. */
  datatype Assignment = Assignment(lists: OMap<string, seq<Observation>>, taken: set<string>)

  /** `after` keeps `before` and grows it to at most `maxObs` entries (a
      list already longer keeps its length). */
  predicate Grown(before: seq<Observation>, after: seq<Observation>, maxObs: int) {
    IsPrefix(before, after) && |after| <= Max(|before|, maxObs)
  }

  /** The entries `after` adds to `before` are of detections outside `taken`. */
  predicate AddsFree(before: seq<Observation>, after: seq<Observation>, taken: set<string>) {
    forall k :: |before| <= k < |after| ==> after[k].detectionId !in taken
  }

  /** `greedyAssign`: the rounds for `objectId` over the detections free
      when it starts, written back into the lists (even for an object that
      had no list). */
  function GreedyAssign(st: AssignState, solve: Solver, config: Config, stamp: Stamp, objectId: string,
                        lists: OMap<string, seq<Observation>>, taken: set<string>): (a: Assignment)
    requires WidthsNonZero(st.panosById)
    ensures Get(a.lists, objectId).Some?
    ensures Picks(st, solve, config, stamp, objectId, Unassigned(Values(st.detectionsById), taken),
                  ListOf(lists, objectId), taken, ListOf(a.lists, objectId))
    ensures |ListOf(a.lists, objectId)| < config.maxObsPerObject ==>
              Round(st, solve, config, stamp, objectId, ListOf(a.lists, objectId), a.taken,
                    Unassigned(Values(st.detectionsById), taken)).None?
    ensures forall k :: k != objectId ==> Get(a.lists, k) == Get(lists, k)
    ensures Grown(ListOf(lists, objectId), ListOf(a.lists, objectId), config.maxObsPerObject)
    ensures AddsFree(ListOf(lists, objectId), ListOf(a.lists, objectId), taken)
    ensures a.taken == taken + IdsBetween(ListOf(a.lists, objectId), |ListOf(lists, objectId)|, |ListOf(a.lists, objectId)|)
    ensures Covered(lists, taken) ==> Covered(a.lists, a.taken)
    ensures Covered(lists, taken) && OneUseEach(lists) ==> OneUseEach(a.lists)
  {
    var available := Unassigned(Values(st.detectionsById), taken);
    var existing := ListOf(lists, objectId);
    var p := Greedy(st, solve, config, stamp, objectId, available, existing, taken);
    var r := Put(lists, objectId, p.observations);
    GetPutSame(lists, objectId, p.observations);
    assert forall k :: k != objectId ==> Get(r, k) == Get(lists, k) by {
      forall k | k != objectId
        ensures Get(r, k) == Get(lists, k)
      {
        GetPutOther(lists, objectId, p.observations, k);
      }
    }
    PicksAreFresh(st, solve, config, stamp, objectId, available, existing, taken, p.observations);
    WriteBack(lists, objectId, p.observations, taken, p.taken);
    Assignment(r, p.taken)
  }

  /** Writing back a list extended by fresh, distinct detections, with
      those detections claimed, keeps the claimed set complete and every
      detection used once. */
  lemma WriteBack(lists: OMap<string, seq<Observation>>, objectId: string, v: seq<Observation>,
                  taken: set<string>, taken': set<string>)
    requires IsPrefix(ListOf(lists, objectId), v)
    requires taken' == taken + IdsBetween(v, |ListOf(lists, objectId)|, |v|)
    requires AddsFree(ListOf(lists, objectId), v, taken)
    requires forall i, k :: |ListOf(lists, objectId)| <= i < k < |v| ==> v[i].detectionId != v[k].detectionId
    ensures Covered(lists, taken) ==> Covered(Put(lists, objectId, v), taken')
    ensures Covered(lists, taken) && OneUseEach(lists) ==> OneUseEach(Put(lists, objectId, v))
  {
    if Covered(lists, taken) {
      var n := |ListOf(lists, objectId)|;
      forall j | n <= j < |v|
        ensures v[j].detectionId in taken'
      {
        IdsBetweenHas(v, n, |v|, j);
      }
      PutKeepsCovered(lists, objectId, v, taken, taken');
      if OneUseEach(lists) {
        PutKeepsOneUse(lists, objectId, v, taken);
      }
    }
  }

  /** Growing twice is growing once, and what both steps add was free at the start. */
  lemma GrownTwice(l0: seq<Observation>, l1: seq<Observation>, l2: seq<Observation>, maxObs: int,
                   taken0: set<string>, taken1: set<string>)
    requires Grown(l0, l1, maxObs) && Grown(l1, l2, maxObs)
    requires AddsFree(l0, l1, taken0) && AddsFree(l1, l2, taken1) && taken0 <= taken1
    ensures Grown(l0, l2, maxObs) && AddsFree(l0, l2, taken0)
  {
    assert l2[..|l0|] == l2[..|l1|][..|l0|];
    forall k | |l0| <= k < |l2|
      ensures l2[k].detectionId !in taken0
    {
      if k < |l1| {
        assert l2[k] == l2[..|l1|][k];
      }
    }
  }

  /** The `objectIds.forEach` loop of `autoAssignObjects`: the objects'
      rounds in the given order, each seeing the detections the earlier
      ones took. */
  function AssignAll(st: AssignState, solve: Solver, config: Config, stamp: Stamp, objectIds: seq<string>,
                     lists: OMap<string, seq<Observation>>, taken: set<string>): (r: Assignment)
    requires WidthsNonZero(st.panosById)
    ensures forall k :: k !in objectIds ==> Get(r.lists, k) == Get(lists, k)
    ensures forall k :: k in objectIds ==> Get(r.lists, k).Some?
    ensures forall k :: Grown(ListOf(lists, k), ListOf(r.lists, k), config.maxObsPerObject)
    ensures forall k :: AddsFree(ListOf(lists, k), ListOf(r.lists, k), taken)
    ensures taken <= r.taken
    ensures Covered(lists, taken) ==> Covered(r.lists, r.taken)
    ensures Covered(lists, taken) && OneUseEach(lists) ==> OneUseEach(r.lists)
    decreases |objectIds|
  {
    if |objectIds| == 0 then
      assert forall k :: ListOf(lists, k)[..|ListOf(lists, k)|] == ListOf(lists, k);
      Assignment(lists, taken)
    else
      var a := GreedyAssign(st, solve, config, stamp, objectIds[0], lists, taken);
      var r := AssignAll(st, solve, config, stamp, objectIds[1..], a.lists, a.taken);
      assert forall k :: k in objectIds[1..] ==> k in objectIds;
      assert forall k :: k in objectIds ==> k == objectIds[0] || k in objectIds[1..];
      GrownThrough(lists, a.lists, r.lists, objectIds[0], config.maxObsPerObject, taken, a.taken);
      r
  }

  /** Running the rounds over two lists of objects is running them over the
      first and then, from where it left off, over the second. */
  lemma {:induction false} AssignAllAppend(st: AssignState, solve: Solver, config: Config, stamp: Stamp,
                                           ids1: seq<string>, ids2: seq<string>,
                                           lists: OMap<string, seq<Observation>>, taken: set<string>)
    requires WidthsNonZero(st.panosById)
    ensures AssignAll(st, solve, config, stamp, ids1 + ids2, lists, taken)
            == var m := AssignAll(st, solve, config, stamp, ids1, lists, taken);
               AssignAll(st, solve, config, stamp, ids2, m.lists, m.taken)
    decreases |ids1|
  {
    if |ids1| == 0 {
      assert ids1 + ids2 == ids2;
    } else {
      var a := GreedyAssign(st, solve, config, stamp, ids1[0], lists, taken);
      assert (ids1 + ids2)[0] == ids1[0];
      assert (ids1 + ids2)[1..] == ids1[1..] + ids2;
      AssignAllAppend(st, solve, config, stamp, ids1[1..], ids2, a.lists, a.taken);
    }
  }

  /** An object named once ends with exactly what its own `greedyAssign`
      gave it, run on the lists and claimed set the objects before it left;
      the objects after it do not touch its list. */
  lemma AssignAllTurn(st: AssignState, solve: Solver, config: Config, stamp: Stamp, objectIds: seq<string>,
                      lists: OMap<string, seq<Observation>>, taken: set<string>, i: nat)
    requires WidthsNonZero(st.panosById)
    requires i < |objectIds| && objectIds[i] !in objectIds[i + 1..]
    ensures var m := AssignAll(st, solve, config, stamp, objectIds[..i], lists, taken);
            ListOf(AssignAll(st, solve, config, stamp, objectIds, lists, taken).lists, objectIds[i])
            == ListOf(GreedyAssign(st, solve, config, stamp, objectIds[i], m.lists, m.taken).lists, objectIds[i])
  {
    var id, head, tail := objectIds[i], objectIds[..i], objectIds[i..];
    assert objectIds == head + tail && tail[0] == id && tail[1..] == objectIds[i + 1..];
    AssignAllAppend(st, solve, config, stamp, head, tail, lists, taken);
    var m := AssignAll(st, solve, config, stamp, head, lists, taken);
    var g := GreedyAssign(st, solve, config, stamp, id, m.lists, m.taken);
    var rest := AssignAll(st, solve, config, stamp, objectIds[i + 1..], g.lists, g.taken);
    assert AssignAll(st, solve, config, stamp, tail, m.lists, m.taken) == rest;
    assert Get(rest.lists, id) == Get(g.lists, id);
  }

  /** One object grown, then every object grown: together, every object grown. */
  lemma GrownThrough(l0: OMap<string, seq<Observation>>, l1: OMap<string, seq<Observation>>,
                     l2: OMap<string, seq<Observation>>, objectId: string, maxObs: int,
                     taken0: set<string>, taken1: set<string>)
    requires forall k :: k != objectId ==> Get(l1, k) == Get(l0, k)
    requires Grown(ListOf(l0, objectId), ListOf(l1, objectId), maxObs)
    requires AddsFree(ListOf(l0, objectId), ListOf(l1, objectId), taken0)
    requires forall k :: Grown(ListOf(l1, k), ListOf(l2, k), maxObs)
    requires forall k :: AddsFree(ListOf(l1, k), ListOf(l2, k), taken1)
    requires taken0 <= taken1
    ensures forall k :: Grown(ListOf(l0, k), ListOf(l2, k), maxObs)
    ensures forall k :: AddsFree(ListOf(l0, k), ListOf(l2, k), taken0)
  {
    forall k
      ensures Grown(ListOf(l0, k), ListOf(l2, k), maxObs)
      ensures AddsFree(ListOf(l0, k), ListOf(l2, k), taken0)
    {
      if k != objectId {
        assert ListOf(l1, k) == ListOf(l0, k);
        assert ListOf(l0, k)[..|ListOf(l0, k)|] == ListOf(l0, k);
      }
      GrownTwice(ListOf(l0, k), ListOf(l1, k), ListOf(l2, k), maxObs, taken0, taken1);
    }
  }

  /** `autoAssignObjects`: every named object's rounds, starting from the
      state's lists with every detection they use already claimed. */
  function AutoAssignObjects(st: AssignState, solve: Solver, config: Config, stamp: Stamp,
                             objectIds: seq<string>): (r: OMap<string, seq<Observation>>)
    requires WidthsNonZero(st.panosById)
    ensures forall k :: k !in objectIds ==> Get(r, k) == Get(st.observationsByObjectId, k)
    ensures forall k :: k in objectIds ==> Get(r, k).Some?
    ensures forall k :: Grown(ListOf(st.observationsByObjectId, k), ListOf(r, k), config.maxObsPerObject)
    ensures forall k :: AddsFree(ListOf(st.observationsByObjectId, k), ListOf(r, k), ClaimedBy(st.observationsByObjectId))
    ensures OneUseEach(st.observationsByObjectId) ==> OneUseEach(r)
  {
    AssignAll(st, solve, config, stamp, objectIds, st.observationsByObjectId, ClaimedBy(st.observationsByObjectId)).lists
  }

  /** In `autoAssignObjects`, the first object named (and not named again)
      gets exactly its `greedyAssign` result against the state's lists, with
      every detection those lists use already claimed. */
  lemma AutoAssignFirst(st: AssignState, solve: Solver, config: Config, stamp: Stamp, objectIds: seq<string>)
    requires WidthsNonZero(st.panosById)
    requires |objectIds| > 0 && objectIds[0] !in objectIds[1..]
    ensures ListOf(AutoAssignObjects(st, solve, config, stamp, objectIds), objectIds[0])
            == ListOf(GreedyAssign(st, solve, config, stamp, objectIds[0], st.observationsByObjectId,
                                   ClaimedBy(st.observationsByObjectId)).lists, objectIds[0])
  {
    AssignAllTurn(st, solve, config, stamp, objectIds, st.observationsByObjectId, ClaimedBy(st.observationsByObjectId), 0);
  }
}
