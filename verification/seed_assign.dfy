/** The seed search and the top-level decision of `src/state/seedGrow.ts`:
    `bestSeedForCluster` tries every bounded two-panorama seed of a cluster
    and keeps the best growth; `seedGrowAssign` extends an object that
    already has two observations, or otherwise adopts the best seed of any
    cluster, or falls back to one more observation. */
module SeedAssign {
  import opened Common
  import opened OrderedMap
  import opened Types
  import opened Triangulation
  import opened AssignCommon
  import opened PanoClusters
  import opened SeedGrow

  // ---------------------------------------------------------------------
  // Ranking: the `best` / `bestSize` / `bestRms` loops.
  // ---------------------------------------------------------------------

  /** A candidate list with the RMS it is ranked by. */
  datatype Scored = Scored(observations: seq<Observation>, rms: real)

  /** The update test of both best-of loops: a longer list wins, and a list
      of equal length wins only with a strictly lower RMS. */
  predicate Beats(c: Scored, size: int, rms: ExtReal) {
    |c.observations| > size || (|c.observations| == size && Finite(c.rms).Less(rms))
  }

  /** `c` ranks strictly above `d`. */
  predicate Above(c: Scored, d: Scored) {
    Beats(c, |d.observations|, Finite(d.rms))
  }

  /** `r` is what the loop leaves in `best` after the options `cs`, starting
      from `bestSize = size0` and `bestRms = Infinity`: nothing when no option
      reaches `size0`; otherwise an option that reaches it, ranks strictly
      above every earlier option and is not ranked below by any later one. */
  predicate IsPick(cs: seq<Option<Scored>>, size0: int, r: Option<nat>) {
    match r
    case None => forall j :: 0 <= j < |cs| && cs[j].Some? ==> !Beats(cs[j].value, size0, Infinity)
    case Some(i) =>
      && i < |cs| && cs[i].Some?
      && Beats(cs[i].value, size0, Infinity)
      && (forall j :: 0 <= j < i && cs[j].Some? ==> Above(cs[i].value, cs[j].value))
      && (forall j :: i < j < |cs| && cs[j].Some? ==> !Above(cs[j].value, cs[i].value))
  }

  /** The loop state after the first `k` options. */
  predicate Tracks(cs: seq<Option<Scored>>, k: nat, size0: int, size: int, rms: ExtReal, best: Option<nat>)
    requires k <= |cs|
  {
    match best
    case None =>
      && size == size0 && rms == Infinity
      && forall j :: 0 <= j < k && cs[j].Some? ==> !Beats(cs[j].value, size0, Infinity)
    case Some(i) =>
      && i < k && cs[i].Some?
      && size == |cs[i].value.observations| && rms == Finite(cs[i].value.rms)
      && Beats(cs[i].value, size0, Infinity)
      && (forall j :: 0 <= j < i && cs[j].Some? ==> Above(cs[i].value, cs[j].value))
      && (forall j :: i < j < k && cs[j].Some? ==> !Above(cs[j].value, cs[i].value))
  }

  /** The loop from option `k` on. */
  function PickFrom(cs: seq<Option<Scored>>, k: nat, size0: int, size: int, rms: ExtReal, best: Option<nat>): (r: Option<nat>)
    requires k <= |cs|
    requires Tracks(cs, k, size0, size, rms, best)
    ensures IsPick(cs, size0, r)
    decreases |cs| - k
  {
    if k == |cs| then best
    else
      match cs[k]
      case None => PickFrom(cs, k + 1, size0, size, rms, best)
      case Some(c) =>
        if Beats(c, size, rms) then
          PickFrom(cs, k + 1, size0, |c.observations|, Finite(c.rms), Some(k))
        else
          PickFrom(cs, k + 1, size0, size, rms, best)
  }

  /** The whole loop. */
  function Pick(cs: seq<Option<Scored>>, size0: int): (r: Option<nat>)
    ensures IsPick(cs, size0, r)
  {
    PickFrom(cs, 0, size0, size0, Infinity, None)
  }

  /** Ranking is strict: an option never ranks above itself, and of two
      options at most one ranks above the other. So among options that tie
      on both length and RMS, the first one is kept. */
  lemma {:induction false} FirstOfTiesWins(cs: seq<Option<Scored>>, size0: int, j: nat)
    requires j < |cs| && cs[j].Some?
    requires Pick(cs, size0).Some?
    requires var i := Pick(cs, size0).value;
             |cs[j].value.observations| == |cs[i].value.observations| && cs[j].value.rms == cs[i].value.rms
    ensures Pick(cs, size0).value <= j
  {
    var i := Pick(cs, size0).value;
    assert !Above(cs[i].value, cs[j].value);
  }

  /** The picked option is at least as long as every other option. */
  lemma PickIsLongest(cs: seq<Option<Scored>>, size0: int, i: nat, k: nat)
    requires IsPick(cs, size0, Some(i))
    requires k < |cs| && cs[k].Some?
    ensures |cs[k].value.observations| <= |cs[i].value.observations|
  {
    if k < i {
      assert Above(cs[i].value, cs[k].value);
    } else if k > i {
      assert !Above(cs[k].value, cs[i].value);
    }
  }

  // ---------------------------------------------------------------------
  // Seed pairs.
  // ---------------------------------------------------------------------

  /** `dets.slice(0, 3)`. */
  function Take3(dets: seq<Detection>): (r: seq<Detection>)
    ensures IsPrefix(r, dets)
    ensures |r| == if |dets| < 3 then |dets| else 3
  {
    if |dets| <= 3 then dets else dets[..3]
  }

  /** Every `a` of `left` with every `b` of `right`, row by row. */
  function CrossPairs(left: seq<Detection>, right: seq<Detection>): (r: seq<(Detection, Detection)>)
    ensures forall a, b :: (a, b) in r ==> a in left && b in right
    ensures forall a, b :: a in left && b in right ==> (a, b) in r
    decreases |left|
  {
    if |left| == 0 then []
    else
      var row := seq(|right|, k requires 0 <= k < |right| => (left[0], right[k]));
      var rest := CrossPairs(left[1..], right);
      assert forall a :: a in left ==> a == left[0] || a in left[1..];
      assert forall b :: b in right ==> (left[0], b) in row by {
        forall b | b in right
          ensures (left[0], b) in row
        {
          var k :| 0 <= k < |right| && right[k] == b;
          assert row[k] == (left[0], b);
        }
      }
      row + rest
  }

  /** The first three free detections of a panorama. */
  function Head3(b: Buckets, panoId: string): seq<Detection> {
    Take3(Bucket(b, panoId))
  }

  /** `(da, db)` pairs a head detection of the panorama at position `i`
      with a head detection of the one at a later position `j`. */
  predicate PairAt(b: Buckets, panoIds: seq<string>, da: Detection, db: Detection, i: int, j: int) {
    0 <= i < j < |panoIds| && da in Head3(b, panoIds[i]) && db in Head3(b, panoIds[j])
  }

  /** The inner two loops for `panoA`: its head detections with the head
      detections of each later panorama in turn. */
  function PairsWith(b: Buckets, panoA: string, later: seq<string>): seq<(Detection, Detection)>
    decreases |later|
  {
    if |later| == 0 then []
    else CrossPairs(Head3(b, panoA), Head3(b, later[0])) + PairsWith(b, panoA, later[1..])
  }

  /** `PairsWith` pairs each head detection of `panoA` with each head
      detection of each later panorama, and nothing else. */
  lemma PairsWithSpec(b: Buckets, panoA: string, later: seq<string>)
    ensures forall da, db :: (da, db) in PairsWith(b, panoA, later) ==>
              da in Head3(b, panoA) && exists j :: 0 <= j < |later| && db in Head3(b, later[j])
    ensures forall da, db, j :: 0 <= j < |later| && da in Head3(b, panoA) && db in Head3(b, later[j]) ==>
              (da, db) in PairsWith(b, panoA, later)
  {
    PairsWithSound(b, panoA, later);
    PairsWithComplete(b, panoA, later);
  }

  lemma {:induction false} PairsWithSound(b: Buckets, panoA: string, later: seq<string>)
    ensures forall da, db :: (da, db) in PairsWith(b, panoA, later) ==>
              da in Head3(b, panoA) && exists j :: 0 <= j < |later| && db in Head3(b, later[j])
    decreases |later|
  {
    if |later| > 0 {
      PairsWithSound(b, panoA, later[1..]);
      var here := CrossPairs(Head3(b, panoA), Head3(b, later[0]));
      var rest := PairsWith(b, panoA, later[1..]);
      assert PairsWith(b, panoA, later) == here + rest;
      forall da, db | (da, db) in here + rest
        ensures da in Head3(b, panoA) && exists j :: 0 <= j < |later| && db in Head3(b, later[j])
      {
        if (da, db) !in here {
          var j :| 0 <= j < |later[1..]| && db in Head3(b, later[1..][j]);
          assert db in Head3(b, later[j + 1]);
        }
      }
    }
  }

  lemma PairsWithComplete(b: Buckets, panoA: string, later: seq<string>)
    ensures forall da, db, j :: 0 <= j < |later| && da in Head3(b, panoA) && db in Head3(b, later[j]) ==>
              (da, db) in PairsWith(b, panoA, later)
  {
    forall da, db, j | 0 <= j < |later| && da in Head3(b, panoA) && db in Head3(b, later[j])
      ensures (da, db) in PairsWith(b, panoA, later)
    {
      PairsWithHas(b, panoA, later, da, db, j);
    }
  }

  lemma {:induction false} PairsWithHas(b: Buckets, panoA: string, later: seq<string>, da: Detection, db: Detection, j: nat)
    requires j < |later| && da in Head3(b, panoA) && db in Head3(b, later[j])
    ensures (da, db) in PairsWith(b, panoA, later)
    decreases j
  {
    var here := CrossPairs(Head3(b, panoA), Head3(b, later[0]));
    var rest := PairsWith(b, panoA, later[1..]);
    assert PairsWith(b, panoA, later) == here + rest;
    if j > 0 {
      assert later[j] == later[1..][j - 1];
      PairsWithHas(b, panoA, later[1..], da, db, j - 1);
      assert (da, db) in rest;
    } else {
      assert (da, db) in here;
    }
  }

  /** `seedPairs`: for panoramas at cluster positions `i < j`, every pair of
      one of the first three free detections of each, in loop order. */
  function SeedPairs(b: Buckets, panoIds: seq<string>): seq<(Detection, Detection)>
    decreases |panoIds|
  {
    if |panoIds| == 0 then []
    else PairsWith(b, panoIds[0], panoIds[1..]) + SeedPairs(b, panoIds[1..])
  }

  /** The seed pairs are exactly the pairs of a head detection of one
      cluster panorama with a head detection of a later one. */
  lemma {:induction false} SeedPairsSpec(b: Buckets, panoIds: seq<string>)
    ensures forall da, db :: (da, db) in SeedPairs(b, panoIds) ==> exists i, j :: PairAt(b, panoIds, da, db, i, j)
    ensures forall da, db, i, j :: PairAt(b, panoIds, da, db, i, j) ==> (da, db) in SeedPairs(b, panoIds)
    decreases |panoIds|
  {
    if |panoIds| > 0 {
      SeedPairsSpec(b, panoIds[1..]);
      SeedPairsStep(b, panoIds, PairsWith(b, panoIds[0], panoIds[1..]), SeedPairs(b, panoIds[1..]));
    }
  }

  lemma SeedPairsStep(b: Buckets, panoIds: seq<string>, first: seq<(Detection, Detection)>, rest: seq<(Detection, Detection)>)
    requires |panoIds| > 0
    requires first == PairsWith(b, panoIds[0], panoIds[1..])
    requires forall da, db :: (da, db) in rest ==> exists i, j :: PairAt(b, panoIds[1..], da, db, i, j)
    requires forall da, db, i, j :: PairAt(b, panoIds[1..], da, db, i, j) ==> (da, db) in rest
    ensures forall da, db :: (da, db) in first + rest ==> exists i, j :: PairAt(b, panoIds, da, db, i, j)
    ensures forall da, db, i, j :: PairAt(b, panoIds, da, db, i, j) ==> (da, db) in first + rest
  {
    var later := panoIds[1..];
    PairsWithSpec(b, panoIds[0], later);
    forall da, db | (da, db) in first + rest
      ensures exists i, j :: PairAt(b, panoIds, da, db, i, j)
    {
      if (da, db) in first {
        var j :| 0 <= j < |later| && db in Head3(b, later[j]);
        assert PairAt(b, panoIds, da, db, 0, j + 1);
      } else {
        var i, j :| PairAt(b, later, da, db, i, j);
        assert PairAt(b, panoIds, da, db, i + 1, j + 1);
      }
    }
    forall da, db, i, j | PairAt(b, panoIds, da, db, i, j)
      ensures (da, db) in first + rest
    {
      if i == 0 {
        assert db in Head3(b, later[j - 1]);
        assert (da, db) in first;
      } else {
        assert PairAt(b, later, da, db, i - 1, j - 1);
        assert (da, db) in rest;
      }
    }
  }

  /** With the buckets of the free detections and distinct cluster
      panoramas, both halves of a seed pair are free detections of two
      different panoramas of the cluster. */
  lemma SeedPairsAreFreeAndApart(b: Buckets, free: seq<Detection>, panoIds: seq<string>, da: Detection, db: Detection)
    requires BucketsMatch(b, free) && NoDup(panoIds)
    requires (da, db) in SeedPairs(b, panoIds)
    ensures da in free && db in free
    ensures da.panoId in panoIds && db.panoId in panoIds && da.panoId != db.panoId
  {
    PairInSeedPairs(b, panoIds, (da, db));
    PairHalvesFree(b, free, panoIds, da, db);
    var i, j :| PairAt(b, panoIds, da, db, i, j);
    HeadIsOnPano(b, free, panoIds[i], da);
    HeadIsOnPano(b, free, panoIds[j], db);
  }


  // ---------------------------------------------------------------------
  // bestSeedForCluster
  // ---------------------------------------------------------------------

  /** `ids.map((id) => detectionsById[id]).filter((det) => det && !assigned.has(det.detection_id))`. */
  function FreeDetections(detectionsById: OMap<string, Detection>, ids: seq<string>, claimed: set<string>): (r: seq<Detection>)
    ensures forall d :: d in r ==> d in Values(detectionsById) && d.detectionId !in claimed
    ensures forall k :: 0 <= k < |ids| && Get(detectionsById, ids[k]).Some?
                        && Get(detectionsById, ids[k]).value.detectionId !in claimed
                        ==> Get(detectionsById, ids[k]).value in r
    ensures forall d :: d in r ==> exists k :: 0 <= k < |ids| && Get(detectionsById, ids[k]) == Some(d)
    decreases |ids|
  {
    if |ids| == 0 then []
    else
      var rest := FreeDetections(detectionsById, ids[1..], claimed);
      assert forall k :: 1 <= k < |ids| ==> ids[k] == ids[1..][k - 1];
      match Get(detectionsById, ids[0])
      case None => rest
      case Some(d) =>
        assert d in Values(detectionsById) by {
          GetEntry(detectionsById, ids[0]);
          var i :| 0 <= i < |detectionsById| && detectionsById[i] == (ids[0], d);
          assert Values(detectionsById)[i] == d;
        }
        if d.detectionId in claimed then rest else [d] + rest
  }

  /** One id gives its detection when it is known and free, and nothing
      otherwise. */
  lemma FreeDetectionsSingle(detectionsById: OMap<string, Detection>, id: string, claimed: set<string>)
    ensures FreeDetections(detectionsById, [id], claimed)
            == match Get(detectionsById, id)
               case Some(d) => if d.detectionId in claimed then [] else [d]
               case None => []
  {
    assert [id][1..] == [];
  }

  /** The candidates of two id lists one after the other are the candidates
      of the first followed by those of the second; with
      `FreeDetectionsSingle` this fixes the result and its order. */
  lemma {:induction false} FreeDetectionsAppend(detectionsById: OMap<string, Detection>, ids1: seq<string>,
                                                ids2: seq<string>, claimed: set<string>)
    ensures FreeDetections(detectionsById, ids1 + ids2, claimed)
            == FreeDetections(detectionsById, ids1, claimed) + FreeDetections(detectionsById, ids2, claimed)
    decreases |ids1|
  {
    if |ids1| == 0 {
      assert ids1 + ids2 == ids2;
    } else {
      assert (ids1 + ids2)[0] == ids1[0];
      assert (ids1 + ids2)[1..] == ids1[1..] + ids2;
      FreeDetectionsAppend(detectionsById, ids1[1..], ids2, claimed);
    }
  }

  /** The two observations a seed pair starts from, both for `objectId`. */
  function PairSeed(st: AssignState, stamp: Stamp, objectId: string, pair: (Detection, Detection)): (seed: seq<Observation>)
    requires WidthsNonZero(st.panosById)
    requires Get(st.panosById, pair.0.panoId).Some? && Get(st.panosById, pair.1.panoId).Some?
    ensures |seed| == 2 && seed[0].objectId == objectId && seed[1].objectId == objectId
    ensures seed[0].detectionId == pair.0.detectionId && seed[1].detectionId == pair.1.detectionId
  {
    [MakeObservation(objectId, pair.0, Get(st.panosById, pair.0.panoId).value, stamp),
     MakeObservation(objectId, pair.1, Get(st.panosById, pair.1.panoId).value, stamp)]
  }

  /** One seed pair's growth, or nothing when either panorama is unknown. */
  function SeedResult(st: AssignState, o: Oracles, config: Config, stamp: Stamp, objectId: string,
                      pair: (Detection, Detection), cands: seq<Detection>): (r: Option<Scored>)
    requires WidthsNonZero(st.panosById)
    ensures r.Some? <==> Get(st.panosById, pair.0.panoId).Some? && Get(st.panosById, pair.1.panoId).Some?
    ensures r.Some? ==> |r.value.observations| >= 2
    ensures r.Some? ==> r.value.observations[0].detectionId == pair.0.detectionId
                        && r.value.observations[1].detectionId == pair.1.detectionId
    ensures r.Some? ==> forall k :: 2 <= k < |r.value.observations| ==>
                          r.value.observations[k].detectionId in DetectionIdsOfDetections(cands)
    ensures r.Some? ==> r.value.rms == RmsOr0(Triangulate(o.solve, r.value.observations))
    ensures r.Some? ==> var seed := PairSeed(st, stamp, objectId, pair);
                        && r.value.observations == GrowCluster(st, o, config, stamp, seed, cands).observations
                        && Extends(o, config, seed, r.value.observations, DetectionIdsOfDetections(cands))
                        && |r.value.observations| <= Max(2, config.maxObsPerObject)
  {
    var panoA := Get(st.panosById, pair.0.panoId);
    var panoB := Get(st.panosById, pair.1.panoId);
    if panoA.None? || panoB.None? then None
    else
      var seed := PairSeed(st, stamp, objectId, pair);
      var g := GrowCluster(st, o, config, stamp, seed, cands);
      assert IsPrefix(seed, g.observations);
      assert g.observations[0] == seed[0] && g.observations[1] == seed[1];
      Some(Scored(g.observations, g.rms))
  }

  /** The growth of every seed pair of `cluster`, in pair order, each grown
      over the cluster's still free detections. */
  function SeedOptions(st: AssignState, o: Oracles, config: Config, stamp: Stamp, objectId: string,
                       cluster: PanoCluster, claimed: set<string>): (r: seq<Option<Scored>>)
    requires WidthsNonZero(st.panosById)
    ensures var pairs := SeedPairs(BuildDetectionBuckets(Values(st.detectionsById), claimed), cluster.panoIds);
            var cands := FreeDetections(st.detectionsById, cluster.detectionIds, claimed);
            && |r| == |pairs|
            && forall k :: 0 <= k < |pairs| ==> r[k] == SeedResult(st, o, config, stamp, objectId, pairs[k], cands)
  {
    var pairs := SeedPairs(BuildDetectionBuckets(Values(st.detectionsById), claimed), cluster.panoIds);
    var cands := FreeDetections(st.detectionsById, cluster.detectionIds, claimed);
    seq(|pairs|, k requires 0 <= k < |pairs| => SeedResult(st, o, config, stamp, objectId, pairs[k], cands))
  }

  /** Every seed option lists free detections only. */
  lemma SeedOptionsAreFree(st: AssignState, o: Oracles, config: Config, stamp: Stamp, objectId: string,
                           cluster: PanoCluster, claimed: set<string>)
    requires WidthsNonZero(st.panosById)
    ensures var options := SeedOptions(st, o, config, stamp, objectId, cluster, claimed);
            forall k, m :: 0 <= k < |options| && options[k].Some? && 0 <= m < |options[k].value.observations| ==>
              options[k].value.observations[m].detectionId !in claimed
  {
    var pairs := SeedPairs(BuildDetectionBuckets(Values(st.detectionsById), claimed), cluster.panoIds);
    var cands := FreeDetections(st.detectionsById, cluster.detectionIds, claimed);
    var options := SeedOptions(st, o, config, stamp, objectId, cluster, claimed);
    forall k | 0 <= k < |options| && options[k].Some?
      ensures forall m :: 0 <= m < |options[k].value.observations| ==>
                options[k].value.observations[m].detectionId !in claimed
    {
      assert pairs[k] in pairs;
      SeedResultIsFree(st, o, config, stamp, objectId, cluster, claimed, pairs[k], cands);
    }
  }

  /** Starting from size 0, every option reaches the bar, so the loop keeps
      something exactly when some option exists. */
  lemma PickFromZero(cs: seq<Option<Scored>>)
    ensures Pick(cs, 0).None? <==> forall k :: 0 <= k < |cs| ==> cs[k].None?
  {
    if Pick(cs, 0).None? {
      forall k | 0 <= k < |cs|
        ensures cs[k].None?
      {
        if cs[k].Some? {
          assert Beats(cs[k].value, 0, Infinity);
        }
      }
    }
  }

  /** The `for (const [a, b] of seedPairs)` ranking loop, from `bestSize = 0`. */
  function BestOf(options: seq<Option<Scored>>): (r: Option<seq<Observation>>)
    ensures r.None? <==> forall k :: 0 <= k < |options| ==> options[k].None?
    ensures r.Some? ==> exists i: nat :: IsPick(options, 0, Some(i)) && options[i].value.observations == r.value
  {
    PickFromZero(options);
    match Pick(options, 0)
    case None => None
    case Some(i) =>
      assert IsPick(options, 0, Some(i));
      Some(options[i].value.observations)
  }

  /** `bestSeedForCluster`: the best growth over the cluster's seed pairs.
      Nothing exactly when no pair has both panoramas known; otherwise a
      list of two or more free detections, the one the ranking keeps
      (`IsPick`): no pair grows longer, none of equal length has a lower
      RMS, every earlier pair ranks strictly lower. */
  function BestSeedForCluster(st: AssignState, o: Oracles, config: Config, stamp: Stamp, objectId: string,
                              cluster: PanoCluster, claimed: set<string>): (r: Option<seq<Observation>>)
    requires WidthsNonZero(st.panosById)
    ensures r.Some? ==> |r.value| >= 2
    ensures r.Some? ==> forall k :: 0 <= k < |r.value| ==> r.value[k].detectionId !in claimed
    ensures var options := SeedOptions(st, o, config, stamp, objectId, cluster, claimed);
            r.Some? ==> exists i: nat :: IsPick(options, 0, Some(i)) && options[i].value.observations == r.value
  {
    var options := SeedOptions(st, o, config, stamp, objectId, cluster, claimed);
    SeedOptionsAreFree(st, o, config, stamp, objectId, cluster, claimed);
    BestOf(options)
  }

  /** `bestSeedForCluster` finds nothing exactly when no seed pair has both
      of its panoramas known. */
  lemma BestSeedNone(st: AssignState, o: Oracles, config: Config, stamp: Stamp, objectId: string,
                     cluster: PanoCluster, claimed: set<string>)
    requires WidthsNonZero(st.panosById)
    ensures BestSeedForCluster(st, o, config, stamp, objectId, cluster, claimed).None?
            <==> NoKnownPair(st.panosById, SeedPairs(BuildDetectionBuckets(Values(st.detectionsById), claimed), cluster.panoIds))
  {
    var options := SeedOptions(st, o, config, stamp, objectId, cluster, claimed);
    var pairs := SeedPairs(BuildDetectionBuckets(Values(st.detectionsById), claimed), cluster.panoIds);
    var cands := FreeDetections(st.detectionsById, cluster.detectionIds, claimed);
    SeedOptionsNone(st, o, config, stamp, objectId, pairs, cands, options);
    assert BestSeedForCluster(st, o, config, stamp, objectId, cluster, claimed) == BestOf(options);
  }

  /** A pair has no growth exactly when one of its panoramas is unknown. */
  lemma SeedOptionsNone(st: AssignState, o: Oracles, config: Config, stamp: Stamp, objectId: string,
                        pairs: seq<(Detection, Detection)>, cands: seq<Detection>, options: seq<Option<Scored>>)
    requires WidthsNonZero(st.panosById)
    requires |options| == |pairs|
    requires forall k :: 0 <= k < |pairs| ==> options[k] == SeedResult(st, o, config, stamp, objectId, pairs[k], cands)
    ensures (forall k :: 0 <= k < |options| ==> options[k].None?) <==> NoKnownPair(st.panosById, pairs)
  {
  }

  /** No pair has both of its panoramas known. */
  predicate NoKnownPair(panos: OMap<string, Pano>, pairs: seq<(Detection, Detection)>) {
    forall k :: 0 <= k < |pairs| ==> Get(panos, pairs[k].0.panoId).None? || Get(panos, pairs[k].1.panoId).None?
  }

  /** Every observation of a seed result is of a free detection. */
  lemma SeedResultIsFree(st: AssignState, o: Oracles, config: Config, stamp: Stamp, objectId: string,
                         cluster: PanoCluster, claimed: set<string>, pair: (Detection, Detection), cands: seq<Detection>)
    requires WidthsNonZero(st.panosById)
    requires pair in SeedPairs(BuildDetectionBuckets(Values(st.detectionsById), claimed), cluster.panoIds)
    requires cands == FreeDetections(st.detectionsById, cluster.detectionIds, claimed)
    requires SeedResult(st, o, config, stamp, objectId, pair, cands).Some?
    ensures forall k :: 0 <= k < |SeedResult(st, o, config, stamp, objectId, pair, cands).value.observations| ==>
              SeedResult(st, o, config, stamp, objectId, pair, cands).value.observations[k].detectionId !in claimed
  {
    var b := BuildDetectionBuckets(Values(st.detectionsById), claimed);
    var free := Unassigned(Values(st.detectionsById), claimed);
    UnassignedMembers(Values(st.detectionsById), claimed);
    PairInSeedPairs(b, cluster.panoIds, pair);
    var rs := SeedResult(st, o, config, stamp, objectId, pair, cands).value.observations;
    forall k | 0 <= k < |rs|
      ensures rs[k].detectionId !in claimed
    {
      if k == 0 {
        PairHalvesFree(b, free, cluster.panoIds, pair.0, pair.1);
      } else if k == 1 {
        PairHalvesFree(b, free, cluster.panoIds, pair.0, pair.1);
      } else {
        var ids := DetectionIdsOfDetections(cands);
        var m :| 0 <= m < |ids| && ids[m] == rs[k].detectionId;
        assert cands[m] in cands;
      }
    }
  }

  lemma PairInSeedPairs(b: Buckets, panoIds: seq<string>, pair: (Detection, Detection))
    requires pair in SeedPairs(b, panoIds)
    ensures exists i, j :: PairAt(b, panoIds, pair.0, pair.1, i, j)
  {
    SeedPairsSpec(b, panoIds);
    assert pair == (pair.0, pair.1);
  }

  /** Both halves of a pair of head detections are free. */
  lemma PairHalvesFree(b: Buckets, free: seq<Detection>, panoIds: seq<string>, da: Detection, db: Detection)
    requires BucketsMatch(b, free)
    requires exists i, j :: PairAt(b, panoIds, da, db, i, j)
    ensures da in free && db in free
  {
    var i, j :| PairAt(b, panoIds, da, db, i, j);
    BucketIsFree(b, free, panoIds[i]);
    BucketIsFree(b, free, panoIds[j]);
    OnPanoMembers(free, panoIds[i]);
    OnPanoMembers(free, panoIds[j]);
    var hi := Bucket(b, panoIds[i]);
    var hj := Bucket(b, panoIds[j]);
    assert da in hi by {
      var k :| 0 <= k < |Head3(b, panoIds[i])| && Head3(b, panoIds[i])[k] == da;
      assert hi[k] == da;
    }
    assert db in hj by {
      var k :| 0 <= k < |Head3(b, panoIds[j])| && Head3(b, panoIds[j])[k] == db;
      assert hj[k] == db;
    }
  }

  /** A head detection of a panorama's bucket lies on that panorama. */
  lemma HeadIsOnPano(b: Buckets, free: seq<Detection>, panoId: string, d: Detection)
    requires BucketsMatch(b, free)
    requires d in Head3(b, panoId)
    ensures d.panoId == panoId
  {
    BucketIsFree(b, free, panoId);
    OnPanoMembers(free, panoId);
    var k :| 0 <= k < |Head3(b, panoId)| && Head3(b, panoId)[k] == d;
    assert Bucket(b, panoId)[k] == d;
  }

  // ---------------------------------------------------------------------
  // seedGrowAssign
  // ---------------------------------------------------------------------

  /** `total.map((o) => [o.detection_id, o])`. */
  function ByDetection(total: seq<Observation>): (kvs: seq<(string, Observation)>)
    ensures |kvs| == |total|
    ensures forall i :: 0 <= i < |total| ==> kvs[i] == (total[i].detectionId, total[i])
  {
    seq(|total|, i requires 0 <= i < |total| => (total[i].detectionId, total[i]))
  }

  /** `[...new Map(total.map((o) => [o.detection_id, o])).values()]`: one
      observation per detection id, in order of first occurrence, each the
      last observation in `total` with that id. */
  function MergeByDetection(total: seq<Observation>): (r: seq<Observation>)
    ensures DetectionIds(r) == Dedup(DetectionIds(total))
    ensures forall k :: 0 <= k < |r| ==> r[k] in total
    ensures forall k :: 0 <= k < |r| ==> LastValue(ByDetection(total), r[k].detectionId) == Some(r[k])
  {
    var kvs := ByDetection(total);
    var m := FromEntries(kvs);
    MergeEntries(total, m);
    Values(m)
  }

  lemma MergeEntries(total: seq<Observation>, m: OMap<string, Observation>)
    requires m == FromEntries(ByDetection(total))
    ensures Keys(m) == Dedup(DetectionIds(total))
    ensures DetectionIds(Values(m)) == Keys(m)
    ensures forall k :: 0 <= k < |m| ==> m[k].1 in total
    ensures forall k :: 0 <= k < |m| ==> LastValue(ByDetection(total), m[k].0) == Some(m[k].1)
  {
    var kvs := ByDetection(total);
    FromEntriesSpec(kvs);
    assert EntryKeys(kvs) == DetectionIds(total);
    forall k | 0 <= k < |m|
      ensures m[k].1 in total && m[k].1.detectionId == m[k].0
      ensures LastValue(kvs, m[k].0) == Some(m[k].1)
    {
      MergeEntry(total, m, k);
    }
  }

  lemma MergeEntry(total: seq<Observation>, m: OMap<string, Observation>, k: nat)
    requires m == FromEntries(ByDetection(total))
    requires k < |m|
    ensures m[k].1 in total && m[k].1.detectionId == m[k].0
    ensures LastValue(ByDetection(total), m[k].0) == Some(m[k].1)
  {
    var kvs := ByDetection(total);
    FromEntriesSpec(kvs);
    GetEntry(m, m[k].0);
    assert Get(m, m[k].0) == Some(m[k].1);
    LastValueIsEntry(kvs, m[k].0);
    var i :| 0 <= i < |kvs| && kvs[i] == (m[k].0, m[k].1);
    assert total[i] == m[k].1;
  }

  /** `clusters.flatMap((cl) => cl.detectionIds)`. */
  function AllDetectionIds(clusters: seq<PanoCluster>): (ids: seq<string>)
    ensures forall x :: x in ids <==> exists k :: 0 <= k < |clusters| && x in clusters[k].detectionIds
    decreases |clusters|
  {
    if |clusters| == 0 then []
    else
      var rest := AllDetectionIds(clusters[1..]);
      assert forall k :: 1 <= k < |clusters| ==> clusters[k] == clusters[1..][k - 1];
      clusters[0].detectionIds + rest
  }

  /** A merged list keeps to the free detections apart from those it already
      had and, from at most one earlier observation, lists each detection
      once after the earlier one. */
  predicate MergeOk(existing: seq<Observation>, claimed: set<string>, list: seq<Observation>) {
    && (forall k :: 0 <= k < |list| ==> list[k] in existing || list[k].detectionId !in claimed)
    && (|existing| <= 1 ==> NoDup(DetectionIds(list)) && IsPrefix(DetectionIds(existing), DetectionIds(list)))
  }

  /** One cluster's option in `seedGrowAssign`'s ranking: its best seed merged
      after the existing observations, ranked by the merged list's RMS. */
  function MergeOption(st: AssignState, o: Oracles, config: Config, stamp: Stamp, objectId: string,
                       cluster: PanoCluster, claimed: set<string>, existing: seq<Observation>): (r: Option<Scored>)
    requires WidthsNonZero(st.panosById)
    ensures r.Some? ==> MergeOk(existing, claimed, r.value.observations)
    ensures var best := BestSeedForCluster(st, o, config, stamp, objectId, cluster, claimed);
            && (r.Some? <==> best.Some?)
            && (r.Some? ==> && r.value.observations == MergeByDetection(existing + best.value)
                            && r.value.rms == RmsOr0(Triangulate(o.solve, r.value.observations)))
  {
    match BestSeedForCluster(st, o, config, stamp, objectId, cluster, claimed)
    case None => None
    case Some(seed) =>
      var list := MergeByDetection(existing + seed);
      MergeKeepsFree(existing, seed, claimed);
      Some(Scored(list, RmsOr0(Triangulate(o.solve, list))))
  }

  /** Merging a seed of free detections after the existing observations
      adds only free detections; after at most one existing observation the
      merge lists distinct detections with the existing one first. */
  lemma MergeKeepsFree(existing: seq<Observation>, seed: seq<Observation>, claimed: set<string>)
    requires forall k :: 0 <= k < |seed| ==> seed[k].detectionId !in claimed
    ensures var list := MergeByDetection(existing + seed);
            forall k :: 0 <= k < |list| ==> list[k] in existing || list[k].detectionId !in claimed
    ensures var list := MergeByDetection(existing + seed);
            |existing| <= 1 ==> NoDup(DetectionIds(list)) && IsPrefix(DetectionIds(existing), DetectionIds(list))
  {
    var total := existing + seed;
    var list := MergeByDetection(total);
    forall k | 0 <= k < |list|
      ensures list[k] in existing || list[k].detectionId !in claimed
    {
      assert list[k] in total;
      if list[k] !in existing {
        var j :| 0 <= j < |seed| && seed[j] == list[k];
      }
    }
    if |existing| <= 1 {
      MergeKeepsExisting(existing, seed);
    }
  }

  /** Merging a list of at most one observation with a seed keeps that
      observation's detection first and lists every detection once. */
  lemma MergeKeepsExisting(existing: seq<Observation>, seed: seq<Observation>)
    requires |existing| <= 1
    ensures var list := MergeByDetection(existing + seed);
            NoDup(DetectionIds(list)) && IsPrefix(DetectionIds(existing), DetectionIds(list))
  {
    DetectionIdsAppend(existing, seed);
    DedupAppend(DetectionIds(existing), DetectionIds(seed));
  }

  /** Every cluster's option, in cluster order. */
  function MergeOptions(st: AssignState, o: Oracles, config: Config, stamp: Stamp, objectId: string,
                        clusters: seq<PanoCluster>, claimed: set<string>, existing: seq<Observation>): (r: seq<Option<Scored>>)
    requires WidthsNonZero(st.panosById)
    ensures |r| == |clusters|
    ensures forall k :: 0 <= k < |r| ==> r[k] == MergeOption(st, o, config, stamp, objectId, clusters[k], claimed, existing)
    ensures forall k :: 0 <= k < |r| && r[k].Some? ==> MergeOk(existing, claimed, r[k].value.observations)
  {
    seq(|clusters|, k requires 0 <= k < |clusters| => MergeOption(st, o, config, stamp, objectId, clusters[k], claimed, existing))
  }

  /** The branch of `seedGrowAssign` for fewer than two observations: the
      best merge of two or more, else one more observation for a single
      existing one, else nothing new. */
  function SeedOrFallback(st: AssignState, o: Oracles, config: Config, stamp: Stamp, objectId: string,
                          claimed: set<string>, existing: seq<Observation>, clusters: seq<PanoCluster>,
                          cands: seq<Detection>): (r: seq<Observation>)
    requires WidthsNonZero(st.panosById)
    requires |existing| < 2
    requires forall d :: d in cands ==> d.detectionId !in claimed
    ensures forall k :: 0 <= k < |r| ==> r[k] in existing || r[k].detectionId !in claimed
    ensures || r == existing
            || (|r| >= 2 && NoDup(DetectionIds(r)) && IsPrefix(DetectionIds(existing), DetectionIds(r)))
            || (|existing| == 1 && |r| == 2 && r[0] == existing[0] && r[1].detectionId !in claimed)
  {
    var options := MergeOptions(st, o, config, stamp, objectId, clusters, claimed, existing);
    var pick := Pick(options, |existing|);
    if pick.Some? && |options[pick.value].value.observations| >= 2 then
      var list := options[pick.value].value.observations;
      assert MergeOk(existing, claimed, list);
      list
    else
      Fallback(st, stamp, objectId, claimed, existing, cands)
  }

  /** When some cluster's merged option has two or more observations, the
      result is the option the ranking picks; when none has, it is the
      fallback. */
  lemma SeedOrFallbackCases(st: AssignState, o: Oracles, config: Config, stamp: Stamp, objectId: string,
                            claimed: set<string>, existing: seq<Observation>, clusters: seq<PanoCluster>,
                            cands: seq<Detection>)
    requires WidthsNonZero(st.panosById)
    requires |existing| < 2
    requires forall d :: d in cands ==> d.detectionId !in claimed
    ensures var options := MergeOptions(st, o, config, stamp, objectId, clusters, claimed, existing);
            var r := SeedOrFallback(st, o, config, stamp, objectId, claimed, existing, clusters, cands);
            SomeSeedOfTwo(options) ==>
              exists i :: 0 <= i < |options| && IsPick(options, |existing|, Some(i)) && r == options[i].value.observations
    ensures var options := MergeOptions(st, o, config, stamp, objectId, clusters, claimed, existing);
            !SomeSeedOfTwo(options) ==>
              SeedOrFallback(st, o, config, stamp, objectId, claimed, existing, clusters, cands)
              == Fallback(st, stamp, objectId, claimed, existing, cands)
  {
    var options := MergeOptions(st, o, config, stamp, objectId, clusters, claimed, existing);
    var pick := Pick(options, |existing|);
    if SomeSeedOfTwo(options) {
      SeedOfTwoIsPicked(options, |existing|);
      assert IsPick(options, |existing|, Some(pick.value));
    } else if pick.Some? {
      assert !(|options[pick.value].value.observations| >= 2);
    }
  }

  /** Some cluster's merged option has at least two observations. */
  predicate SomeSeedOfTwo(options: seq<Option<Scored>>) {
    exists k :: 0 <= k < |options| && options[k].Some? && |options[k].value.observations| >= 2
  }

  /** From fewer than two observations, an option of two or more is always
      picked, and the pick is then itself of two or more. */
  lemma SeedOfTwoIsPicked(options: seq<Option<Scored>>, size0: int)
    requires size0 < 2
    requires SomeSeedOfTwo(options)
    ensures Pick(options, size0).Some? && |options[Pick(options, size0).value].value.observations| >= 2
  {
    var k :| 0 <= k < |options| && options[k].Some? && |options[k].value.observations| >= 2;
    assert Beats(options[k].value, size0, Infinity);
    var i := Pick(options, size0).value;
    PickIsLongest(options, size0, i, k);
  }

  /** The fallback when no seed wins: a lone observation gains the first
      free candidate detection, when its panorama is known. */
  function Fallback(st: AssignState, stamp: Stamp, objectId: string, claimed: set<string>,
                    existing: seq<Observation>, cands: seq<Detection>): (r: seq<Observation>)
    requires WidthsNonZero(st.panosById)
    requires |existing| < 2
    requires forall d :: d in cands ==> d.detectionId !in claimed
    ensures forall k :: 0 <= k < |r| ==> r[k] in existing || r[k].detectionId !in claimed
    ensures || r == existing
            || (&& |existing| == 1 && |cands| > 0 && |r| == 2 && r[0] == existing[0]
                && r[1].detectionId == cands[0].detectionId && r[1].detectionId !in claimed)
    ensures |existing| == 1 && |cands| > 0 && Get(st.panosById, cands[0].panoId).Some? ==>
              r == existing + [MakeObservation(objectId, cands[0], Get(st.panosById, cands[0].panoId).value, stamp)]
    ensures !(|existing| == 1 && |cands| > 0 && Get(st.panosById, cands[0].panoId).Some?) ==> r == existing
  {
    if |existing| >= 1 && |cands| > 0 then
      match Get(st.panosById, cands[0].panoId)
      case Some(pano) =>
        assert cands[0] in cands;
        var obs := MakeObservation(objectId, cands[0], pano, stamp);
        var r := existing + [obs];
        assert r[0] == existing[0] && r[1] == obs;
        r
      case None => existing
    else
      existing
  }

  /** `seedGrowAssign` for `objectId`. With two or more observations the
      object is grown over the free detections of every cluster; otherwise
      `SeedOrFallback` decides. `claimed` is only read, and only free
      detections are added. */
  function SeedGrowAssign(st: AssignState, o: Oracles, config: Config, stamp: Stamp, objectId: string,
                          claimed: set<string>): (r: seq<Observation>)
    requires WidthsNonZero(st.panosById)
    ensures var existing := Get(st.observationsByObjectId, objectId).GetOr([]);
            |existing| >= 2 ==>
              && IsPrefix(existing, r)
              && |r| <= Max(|existing|, config.maxObsPerObject)
              && forall k :: |existing| <= k < |r| ==> Acceptable(o, config, r[..k], r[k])
    ensures var existing := Get(st.observationsByObjectId, objectId).GetOr([]);
            forall k :: 0 <= k < |r| ==> r[k] in existing || r[k].detectionId !in claimed
    ensures var existing := Get(st.observationsByObjectId, objectId).GetOr([]);
            |existing| < 2 ==>
              || r == existing
              || (|r| >= 2 && NoDup(DetectionIds(r)) && IsPrefix(DetectionIds(existing), DetectionIds(r)))
              || (|existing| == 1 && |r| == 2 && r[0] == existing[0] && r[1].detectionId !in claimed)
  {
    var existing := Get(st.observationsByObjectId, objectId).GetOr([]);
    var clusters := ClusterPanos(st, o.distance, claimed);
    var cands := FreeDetections(st.detectionsById, AllDetectionIds(clusters), claimed);
    if |existing| >= 2 then
      var g := GrowCluster(st, o, config, stamp, existing, cands);
      GrownAreFree(g.observations, existing, cands, claimed);
      g.observations
    else
      SeedOrFallback(st, o, config, stamp, objectId, claimed, existing, clusters, cands)
  }

  /** The outcomes of `seedGrowAssign`: an object with two or more
      observations gets exactly its growth over the free cluster detections;
      otherwise the ranking's pick when some merged seed has two or more
      observations; otherwise a lone observation gains the first free
      candidate on a known panorama; otherwise the list stays as it was. */
  lemma SeedGrowAssignCases(st: AssignState, o: Oracles, config: Config, stamp: Stamp, objectId: string,
                            claimed: set<string>)
    requires WidthsNonZero(st.panosById)
    ensures var existing := Get(st.observationsByObjectId, objectId).GetOr([]);
            var clusters := ClusterPanos(st, o.distance, claimed);
            var cands := FreeDetections(st.detectionsById, AllDetectionIds(clusters), claimed);
            |existing| >= 2 ==>
              SeedGrowAssign(st, o, config, stamp, objectId, claimed) == GrowCluster(st, o, config, stamp, existing, cands).observations
    ensures var existing := Get(st.observationsByObjectId, objectId).GetOr([]);
            var clusters := ClusterPanos(st, o.distance, claimed);
            var options := MergeOptions(st, o, config, stamp, objectId, clusters, claimed, existing);
            |existing| < 2 && SomeSeedOfTwo(options) ==>
              exists i :: && 0 <= i < |options| && IsPick(options, |existing|, Some(i))
                          && SeedGrowAssign(st, o, config, stamp, objectId, claimed) == options[i].value.observations
    ensures var existing := Get(st.observationsByObjectId, objectId).GetOr([]);
            var clusters := ClusterPanos(st, o.distance, claimed);
            var cands := FreeDetections(st.detectionsById, AllDetectionIds(clusters), claimed);
            var options := MergeOptions(st, o, config, stamp, objectId, clusters, claimed, existing);
            |existing| == 1 && !SomeSeedOfTwo(options) && |cands| > 0 && Get(st.panosById, cands[0].panoId).Some? ==>
              SeedGrowAssign(st, o, config, stamp, objectId, claimed)
              == existing + [MakeObservation(objectId, cands[0], Get(st.panosById, cands[0].panoId).value, stamp)]
    ensures var existing := Get(st.observationsByObjectId, objectId).GetOr([]);
            var clusters := ClusterPanos(st, o.distance, claimed);
            var cands := FreeDetections(st.detectionsById, AllDetectionIds(clusters), claimed);
            var options := MergeOptions(st, o, config, stamp, objectId, clusters, claimed, existing);
            && |existing| < 2 && !SomeSeedOfTwo(options)
            && !(|existing| == 1 && |cands| > 0 && Get(st.panosById, cands[0].panoId).Some?) ==>
              SeedGrowAssign(st, o, config, stamp, objectId, claimed) == existing
  {
    var existing := Get(st.observationsByObjectId, objectId).GetOr([]);
    var clusters := ClusterPanos(st, o.distance, claimed);
    var cands := FreeDetections(st.detectionsById, AllDetectionIds(clusters), claimed);
    if |existing| < 2 {
      SeedOrFallbackCases(st, o, config, stamp, objectId, claimed, existing, clusters, cands);
    }
  }

  /** Observations appended from the candidates are of free detections. */
  lemma GrownAreFree(rs: seq<Observation>, existing: seq<Observation>, cands: seq<Detection>, claimed: set<string>)
    requires IsPrefix(existing, rs)
    requires forall k :: |existing| <= k < |rs| ==> rs[k].detectionId in DetectionIdsOfDetections(cands)
    requires forall d :: d in cands ==> d.detectionId !in claimed
    ensures forall k :: 0 <= k < |rs| ==> rs[k] in existing || rs[k].detectionId !in claimed
  {
    forall k | 0 <= k < |rs|
      ensures rs[k] in existing || rs[k].detectionId !in claimed
    {
      if k < |existing| {
        assert rs[k] == existing[k];
      } else {
        var ids := DetectionIdsOfDetections(cands);
        assert rs[k].detectionId in ids;
        var m :| 0 <= m < |ids| && ids[m] == rs[k].detectionId;
        assert cands[m] in cands;
      }
    }
  }
}
