/** The clustering half of `src/state/seedGrow.ts`: free detections bucketed
    by panorama (`buildDetectionBuckets`), panoramas grouped into proximity
    components by breadth-first search over an all-pairs distance scan
    (`clusterPanos`), and the clusters ranked by score. */
module PanoClusters {
  import opened Common
  import opened OrderedMap
  import opened Types
  import opened AssignCommon

  /** `CLUSTER_DISTANCE_M`: two panoramas at most this far apart are neighbours. */
  const ClusterDistanceM: real := 80.0

  datatype PanoCluster = PanoCluster(panoIds: seq<string>, detectionIds: seq<string>, score: int)

  /** Free detections per panorama id. */
  type Buckets = OMap<string, seq<Detection>>

  /** `detectionsByPano[p] ?? []`. */
  function Bucket(b: Buckets, p: string): seq<Detection> {
    Get(b, p).GetOr([])
  }

  /** What the bucket of `p` must be: the free detections on `p`, or no
      bucket at all when there are none. */
  function ExpectedBucket(free: seq<Detection>, p: string): Option<seq<Detection>> {
    var ds := OnPano(free, p);
    if ds == [] then None else Some(ds)
  }

  ghost predicate BucketsMatch(b: Buckets, free: seq<Detection>) {
    forall p :: Get(b, p) == ExpectedBucket(free, p)
  }

  /** `buildDetectionBuckets`: every detection not yet claimed, appended to
      its panorama's bucket in iteration order. A panorama has a bucket
      exactly when it has a free detection, and the bucket holds all of them. */
  function BuildDetectionBuckets(dets: seq<Detection>, claimed: set<string>): (b: Buckets)
    ensures BucketsMatch(b, Unassigned(dets, claimed))
    decreases |dets|
  {
    if |dets| == 0 then []
    else
      var init := dets[..|dets| - 1];
      var d := dets[|dets| - 1];
      var b := BuildDetectionBuckets(init, claimed);
      assert dets == init + [d];
      UnassignedSnoc(init, d, claimed);
      if d.detectionId in claimed then b
      else
        BucketsStep(b, Unassigned(init, claimed), d);
        Put(b, d.panoId, Bucket(b, d.panoId) + [d])
  }

  /** Appending one free detection to its panorama's bucket keeps the
      buckets equal to the per-panorama free detections. */
  lemma BucketsStep(b: Buckets, free: seq<Detection>, d: Detection)
    requires BucketsMatch(b, free)
    ensures BucketsMatch(Put(b, d.panoId, Bucket(b, d.panoId) + [d]), free + [d])
  {
    forall p
      ensures Get(Put(b, d.panoId, Bucket(b, d.panoId) + [d]), p) == ExpectedBucket(free + [d], p)
    {
      BucketsStepAt(b, free, d, p);
    }
  }

  lemma BucketsStepAt(b: Buckets, free: seq<Detection>, d: Detection, p: string)
    requires Get(b, p) == ExpectedBucket(free, p)
    requires Get(b, d.panoId) == ExpectedBucket(free, d.panoId)
    ensures Get(Put(b, d.panoId, Bucket(b, d.panoId) + [d]), p) == ExpectedBucket(free + [d], p)
  {
    OnPanoSnoc(free, d, p);
    if p == d.panoId {
      GetPutSame(b, d.panoId, Bucket(b, d.panoId) + [d]);
    } else {
      GetPutOther(b, d.panoId, Bucket(b, d.panoId) + [d], p);
    }
  }

  /** `Object.keys(panosById).filter((id) => detectionsByPano[id]?.length)`. */
  function PanosWithFree(ids: seq<string>, b: Buckets): (r: seq<string>)
    ensures forall p :: p in r ==> p in ids && |Bucket(b, p)| > 0
    ensures forall p :: p in ids && |Bucket(b, p)| > 0 ==> p in r
    ensures NoDup(ids) ==> NoDup(r)
    decreases |ids|
  {
    if |ids| == 0 then []
    else
      var rest := PanosWithFree(ids[1..], b);
      assert forall p :: p in ids ==> p == ids[0] || p in ids[1..];
      assert NoDup(ids) ==> ids[0] !in ids[1..];
      if |Bucket(b, ids[0])| > 0 then [ids[0]] + rest else rest
  }

  /** Both panoramas are known and `current` sees `candidate` within the
      clustering distance. */
  predicate Near(panos: OMap<string, Pano>, distance: (LatLng, LatLng) -> real, current: string, candidate: string) {
    match (Get(panos, current), Get(panos, candidate))
    case (Some(a), Some(b)) => distance(LatLng(a.lat, a.lng), LatLng(b.lat, b.lng)) <= ClusterDistanceM
    case _ => false
  }

  /** The inner `panoIds.forEach` of the search: every candidate not yet
      visited nor in the cluster that lies near `current`, in scan order. */
  function Neighbours(panos: OMap<string, Pano>, distance: (LatLng, LatLng) -> real, current: string,
                      candidates: seq<string>, visited: set<string>, members: seq<string>): (r: seq<string>)
    ensures forall q :: q in r ==> q in candidates && q !in visited
    ensures forall q :: q in r ==> Near(panos, distance, current, q)
    ensures forall q :: q in candidates && q !in visited && q !in members && Near(panos, distance, current, q) ==> q in r
    decreases |candidates|
  {
    if |candidates| == 0 then []
    else
      var q := candidates[0];
      var rest := Neighbours(panos, distance, current, candidates[1..], visited, members);
      assert forall p :: p in candidates ==> p == q || p in candidates[1..];
      if q in visited || q in members then rest
      else if Near(panos, distance, current, q) then [q] + rest
      else rest
  }

  /** The detection ids of the buckets of `panoIds`, panorama by panorama. */
  function FlatIds(panoIds: seq<string>, b: Buckets): seq<string>
    decreases |panoIds|
  {
    if |panoIds| == 0 then []
    else Types.DetectionIdsOfDetections(Bucket(b, panoIds[0])) + FlatIds(panoIds[1..], b)
  }

  /** How many of `panoIds` hold at least two free detections. */
  function CountMulti(panoIds: seq<string>, b: Buckets): nat
    decreases |panoIds|
  {
    if |panoIds| == 0 then 0
    else (if |Bucket(b, panoIds[0])| >= 2 then 1 else 0) + CountMulti(panoIds[1..], b)
  }

  /** What one breadth-first search leaves behind. */
  datatype Sweep = Sweep(visited: set<string>, members: seq<string>, detectionIds: seq<string>)

  /** Every neighbour of a visited panorama is visited or waiting in the queue. */
  ghost predicate Frontier(panos: OMap<string, Pano>, distance: (LatLng, LatLng) -> real, panoIds: seq<string>,
                           visited: set<string>, queue: seq<string>) {
    forall v, q :: v in visited && q in panoIds && Near(panos, distance, v, q) ==> q in visited || q in queue
  }

  /** Every neighbour of a visited panorama is visited. */
  ghost predicate Closed(panos: OMap<string, Pano>, distance: (LatLng, LatLng) -> real, panoIds: seq<string>,
                         visited: set<string>) {
    forall v, q :: v in visited && q in panoIds && Near(panos, distance, v, q) ==> q in visited
  }

  function Unvisited(panoIds: seq<string>, visited: set<string>): set<string> {
    set p | p in panoIds && p !in visited
  }

  /** The `while (queue.length)` loop of `clusterPanos`: pop the head; skip
      it if visited; otherwise visit it, add it to the cluster, collect its
      free detection ids and enqueue its unvisited neighbours. */
  function Bfs(panos: OMap<string, Pano>, distance: (LatLng, LatLng) -> real, b: Buckets, panoIds: seq<string>,
               queue: seq<string>, visited: set<string>, members: seq<string>, detIds: seq<string>): (r: Sweep)
    requires forall q :: q in queue ==> q in panoIds
    requires forall m :: m in members ==> m in visited
    requires NoDup(members)
    ensures IsPrefix(members, r.members) && NoDup(r.members)
    ensures forall m :: m in r.members[|members|..] ==> m in panoIds && m !in visited
    ensures r.visited == visited + Elements(r.members[|members|..])
    ensures r.detectionIds == detIds + FlatIds(r.members[|members|..], b)
    ensures Frontier(panos, distance, panoIds, visited, queue) ==> Closed(panos, distance, panoIds, r.visited)
    decreases |Unvisited(panoIds, visited)|, |queue|
  {
    if |queue| == 0 then
      assert members[|members|..] == [];
      Sweep(visited, members, detIds)
    else
      var current := queue[0];
      if current in visited then
        Bfs(panos, distance, b, panoIds, queue[1..], visited, members, detIds)
      else
        var visited' := visited + {current};
        var members' := members + [current];
        var detIds' := detIds + Types.DetectionIdsOfDetections(Bucket(b, current));
        var pushed := Neighbours(panos, distance, current, panoIds, visited', members');
        assert Unvisited(panoIds, visited') == Unvisited(panoIds, visited) - {current};
        assert current in Unvisited(panoIds, visited);
        var r := Bfs(panos, distance, b, panoIds, queue[1..] + pushed, visited', members', detIds');
        BfsStep(b, visited, members, detIds, current, visited', members', detIds', r);
        FrontierStep(panos, distance, panoIds, visited, queue, members, pushed);
        r
  }

  /** Visiting the head of the queue and enqueueing its new neighbours keeps
      every neighbour of a visited panorama visited or queued. */
  lemma FrontierStep(panos: OMap<string, Pano>, distance: (LatLng, LatLng) -> real, panoIds: seq<string>,
                     visited: set<string>, queue: seq<string>, members: seq<string>, pushed: seq<string>)
    requires |queue| > 0 && queue[0] !in visited
    requires forall m :: m in members ==> m in visited
    requires forall q ::
               q in panoIds && q !in visited + {queue[0]} && q !in members + [queue[0]] && Near(panos, distance, queue[0], q)
               ==> q in pushed
    ensures Frontier(panos, distance, panoIds, visited, queue) ==>
            Frontier(panos, distance, panoIds, visited + {queue[0]}, queue[1..] + pushed)
  {
    var current := queue[0];
    forall v, q | Frontier(panos, distance, panoIds, visited, queue) && v in visited + {current} && q in panoIds && Near(panos, distance, v, q)
      ensures q in visited + {current} || q in queue[1..] + pushed
    {
      if v in visited {
        assert q in visited || q in queue;
        if q in queue && q != current {
          assert q in queue[1..];
        }
      }
    }
  }

  /** The search after visiting `current` answers for the search before it. */
  lemma BfsStep(b: Buckets, visited: set<string>, members: seq<string>, detIds: seq<string>, current: string,
                visited': set<string>, members': seq<string>, detIds': seq<string>, r: Sweep)
    requires current !in visited
    requires visited' == visited + {current} && members' == members + [current]
    requires detIds' == detIds + Types.DetectionIdsOfDetections(Bucket(b, current))
    requires IsPrefix(members', r.members)
    requires forall m :: m in r.members[|members'|..] ==> m !in visited'
    requires r.visited == visited' + Elements(r.members[|members'|..])
    requires r.detectionIds == detIds' + FlatIds(r.members[|members'|..], b)
    ensures IsPrefix(members, r.members)
    ensures forall m :: m in r.members[|members|..] ==> m !in visited
    ensures r.visited == visited + Elements(r.members[|members|..])
    ensures r.detectionIds == detIds + FlatIds(r.members[|members|..], b)
  {
    var rm := r.members;
    var suffix := rm[|members|..];
    var tail := rm[|members| + 1..];
    PrefixSplit(members, current, rm);
    assert Elements(suffix) == {current} + Elements(tail) by {
      ElementsCons(suffix);
    }
    var here := Types.DetectionIdsOfDetections(Bucket(b, current));
    assert FlatIds(suffix, b) == here + FlatIds(tail, b) by {
      FlatIdsCons(suffix, b);
    }
    AppendAssoc(detIds, here, FlatIds(tail, b));
    assert forall m :: m in suffix ==> m !in visited by {
      assert forall m :: m in suffix ==> m == current || m in tail;
    }
  }

  /** A list that starts with `p + [x]` starts with `p`, and its part after
      `p` is `x` followed by its part after `p + [x]`. */
  lemma PrefixSplit<T>(p: seq<T>, x: T, s: seq<T>)
    requires IsPrefix(p + [x], s)
    ensures IsPrefix(p, s)
    ensures s[|p|..] == [x] + s[|p| + 1..] && s[|p|..][0] == x && s[|p|..][1..] == s[|p| + 1..]
  {
    assert s[..|p|] == (p + [x])[..|p|];
    assert s[|p|] == (p + [x])[|p|];
  }

  lemma AppendAssoc<T>(x: seq<T>, y: seq<T>, z: seq<T>)
    ensures (x + y) + z == x + (y + z)
  {
  }

  lemma ElementsCons<T>(s: seq<T>)
    requires |s| > 0
    ensures Elements(s) == {s[0]} + Elements(s[1..])
  {
  }

  lemma FlatIdsCons(panoIds: seq<string>, b: Buckets)
    requires |panoIds| > 0
    ensures FlatIds(panoIds, b) == Types.DetectionIdsOfDetections(Bucket(b, panoIds[0])) + FlatIds(panoIds[1..], b)
  {
  }

  function MakeCluster(members: seq<string>, detIds: seq<string>, b: Buckets): PanoCluster {
    PanoCluster(members, detIds, |detIds| + CountMulti(members, b) * 2 + |members|)
  }

  /** The shape every reported cluster has: at least two distinct panoramas
      with free detections, exactly their free detection ids, and the score
      `|detectionIds| + 2 * (panoramas with two or more) + |panoIds|`. */
  predicate WellFormed(c: PanoCluster, b: Buckets, panoIds: seq<string>) {
    && |c.panoIds| >= 2
    && NoDup(c.panoIds)
    && (forall p :: p in c.panoIds ==> p in panoIds)
    && c.detectionIds == FlatIds(c.panoIds, b)
    && c.score == |c.detectionIds| + 2 * CountMulti(c.panoIds, b) + |c.panoIds|
  }

  predicate Disjoint(x: PanoCluster, y: PanoCluster) {
    forall p :: p in x.panoIds ==> p !in y.panoIds
  }

  /** No panorama is in two clusters. */
  predicate PairwiseDisjoint(cs: seq<PanoCluster>) {
    forall i, j :: 0 <= i < j < |cs| ==> Disjoint(cs[i], cs[j])
  }

  /** Every panorama that is near a cluster member and sees that member as
      near in return belongs to the same cluster: a cluster is closed under
      mutual proximity. */
  ghost predicate ComponentClosed(panos: OMap<string, Pano>, distance: (LatLng, LatLng) -> real,
                                  panoIds: seq<string>, c: PanoCluster) {
    forall m, q :: m in c.panoIds && q in panoIds && Near(panos, distance, m, q) && Near(panos, distance, q, m)
                   ==> q in c.panoIds
  }

  /** What the outer loop keeps: well-formed, disjoint, closed clusters made
      of visited panoramas, and no path out of the visited set. */
  ghost predicate GatherInv(panos: OMap<string, Pano>, distance: (LatLng, LatLng) -> real, b: Buckets,
                            panoIds: seq<string>, visited: set<string>, acc: seq<PanoCluster>) {
    && Closed(panos, distance, panoIds, visited)
    && PairwiseDisjoint(acc)
    && (forall k :: 0 <= k < |acc| ==> WellFormed(acc[k], b, panoIds))
    && (forall k :: 0 <= k < |acc| ==> Elements(acc[k].panoIds) <= visited)
    && (forall k :: 0 <= k < |acc| ==> ComponentClosed(panos, distance, panoIds, acc[k]))
  }

  /** One search from an unvisited panorama that reached two or more
      panoramas adds a cluster that keeps the invariant. */
  lemma AddCluster(panos: OMap<string, Pano>, distance: (LatLng, LatLng) -> real, b: Buckets,
                   panoIds: seq<string>, visited: set<string>, acc: seq<PanoCluster>, s: Sweep)
    requires GatherInv(panos, distance, b, panoIds, visited, acc)
    requires |s.members| >= 2 && NoDup(s.members)
    requires forall m :: m in s.members ==> m in panoIds && m !in visited
    requires s.visited == visited + Elements(s.members)
    requires s.detectionIds == FlatIds(s.members, b)
    requires Closed(panos, distance, panoIds, s.visited)
    ensures GatherInv(panos, distance, b, panoIds, s.visited, acc + [MakeCluster(s.members, s.detectionIds, b)])
  {
    var c := MakeCluster(s.members, s.detectionIds, b);
    var acc' := acc + [c];
    forall k | 0 <= k < |acc|
      ensures Disjoint(acc[k], c)
    {
      assert Elements(acc[k].panoIds) <= visited;
    }
    forall m, q | m in c.panoIds && q in panoIds && Near(panos, distance, m, q) && Near(panos, distance, q, m)
      ensures q in c.panoIds
    {
      assert q in s.visited;
      assert q !in visited by {
        assert m !in visited;
      }
    }
    assert acc'[|acc|] == c;
  }

  /** A search that reached a single panorama adds no cluster and keeps the invariant. */
  lemma SkipSingleton(panos: OMap<string, Pano>, distance: (LatLng, LatLng) -> real, b: Buckets,
                      panoIds: seq<string>, visited: set<string>, acc: seq<PanoCluster>, s: Sweep)
    requires GatherInv(panos, distance, b, panoIds, visited, acc)
    requires visited <= s.visited
    requires Closed(panos, distance, panoIds, s.visited)
    ensures GatherInv(panos, distance, b, panoIds, s.visited, acc)
  {
    forall k | 0 <= k < |acc|
      ensures Elements(acc[k].panoIds) <= s.visited
    {
      assert Elements(acc[k].panoIds) <= visited;
    }
  }

  /** The outer `panoIds.forEach` of `clusterPanos`: a search from every
      panorama not yet visited, keeping the components of two or more. */
  function Gather(panos: OMap<string, Pano>, distance: (LatLng, LatLng) -> real, b: Buckets, panoIds: seq<string>,
                  i: nat, visited: set<string>, acc: seq<PanoCluster>): (r: seq<PanoCluster>)
    requires i <= |panoIds|
    requires GatherInv(panos, distance, b, panoIds, visited, acc)
    ensures forall k :: 0 <= k < |r| ==> WellFormed(r[k], b, panoIds)
    ensures forall k :: 0 <= k < |r| ==> ComponentClosed(panos, distance, panoIds, r[k])
    ensures PairwiseDisjoint(r)
    decreases |panoIds| - i
  {
    if i == |panoIds| then acc
    else if panoIds[i] in visited then Gather(panos, distance, b, panoIds, i + 1, visited, acc)
    else
      var s := Bfs(panos, distance, b, panoIds, [panoIds[i]], visited, [], []);
      assert s.members[0..] == s.members;
      if |s.members| >= 2 then
        AddCluster(panos, distance, b, panoIds, visited, acc, s);
        Gather(panos, distance, b, panoIds, i + 1, s.visited, acc + [MakeCluster(s.members, s.detectionIds, b)])
      else
        SkipSingleton(panos, distance, b, panoIds, visited, acc, s);
        Gather(panos, distance, b, panoIds, i + 1, s.visited, acc)
  }

  // ---------------------------------------------------------------------
  // Clusters are connected pieces of the proximity graph.
  // ---------------------------------------------------------------------

  /** Every panorama after the first is seen as near by an earlier one: the
      list is connected through the proximity relation, in visiting order. */
  ghost predicate Chained(panos: OMap<string, Pano>, distance: (LatLng, LatLng) -> real, members: seq<string>) {
    forall k :: 0 < k < |members| ==> SeenBy(panos, distance, members[..k], members[k])
  }

  /** Every cluster of `cs` is connected. */
  ghost predicate AllChained(panos: OMap<string, Pano>, distance: (LatLng, LatLng) -> real, cs: seq<PanoCluster>) {
    forall k :: 0 <= k < |cs| ==> Chained(panos, distance, cs[k].panoIds)
  }

  /** Some panorama of `earlier` sees `q` as near. */
  ghost predicate SeenBy(panos: OMap<string, Pano>, distance: (LatLng, LatLng) -> real, earlier: seq<string>, q: string) {
    exists j :: 0 <= j < |earlier| && Near(panos, distance, earlier[j], q)
  }

  /** Every queued panorama is seen as near by a member already visited; a
      search that has visited nothing yet holds at most its start. */
  ghost predicate QueueLinked(panos: OMap<string, Pano>, distance: (LatLng, LatLng) -> real,
                              members: seq<string>, queue: seq<string>) {
    && (|members| == 0 ==> |queue| <= 1)
    && forall q :: q in queue && |members| > 0 ==> SeenBy(panos, distance, members, q)
  }

  /** A search adds panoramas only through the proximity relation. */
  lemma {:induction false} BfsChained(panos: OMap<string, Pano>, distance: (LatLng, LatLng) -> real, b: Buckets,
                                      panoIds: seq<string>, queue: seq<string>, visited: set<string>,
                                      members: seq<string>, detIds: seq<string>)
    requires forall q :: q in queue ==> q in panoIds
    requires forall m :: m in members ==> m in visited
    requires NoDup(members)
    requires Chained(panos, distance, members) && QueueLinked(panos, distance, members, queue)
    ensures Chained(panos, distance, Bfs(panos, distance, b, panoIds, queue, visited, members, detIds).members)
    decreases |Unvisited(panoIds, visited)|, |queue|
  {
    if |queue| > 0 {
      var current := queue[0];
      if current in visited {
        assert forall q :: q in queue[1..] ==> q in queue;
        BfsChained(panos, distance, b, panoIds, queue[1..], visited, members, detIds);
      } else {
        var visited' := visited + {current};
        var members' := members + [current];
        var detIds' := detIds + Types.DetectionIdsOfDetections(Bucket(b, current));
        var pushed := Neighbours(panos, distance, current, panoIds, visited', members');
        assert Unvisited(panoIds, visited') == Unvisited(panoIds, visited) - {current};
        assert current in Unvisited(panoIds, visited);
        ChainStep(panos, distance, members, queue, pushed);
        BfsChained(panos, distance, b, panoIds, queue[1..] + pushed, visited', members', detIds');
      }
    }
  }

  /** Visiting the head of the queue and queueing panoramas it sees as near
      keeps the members connected and the queue linked to them. */
  lemma ChainStep(panos: OMap<string, Pano>, distance: (LatLng, LatLng) -> real,
                  members: seq<string>, queue: seq<string>, pushed: seq<string>)
    requires |queue| > 0
    requires Chained(panos, distance, members) && QueueLinked(panos, distance, members, queue)
    requires forall q :: q in pushed ==> Near(panos, distance, queue[0], q)
    ensures Chained(panos, distance, members + [queue[0]])
    ensures QueueLinked(panos, distance, members + [queue[0]], queue[1..] + pushed)
  {
    var current := queue[0];
    var members' := members + [current];
    forall k | 0 < k < |members'|
      ensures SeenBy(panos, distance, members'[..k], members'[k])
    {
      if k < |members| {
        assert members'[..k] == members[..k] && members'[k] == members[k];
      } else {
        assert current in queue && |members| > 0;
        assert members'[..k] == members && members'[k] == current;
      }
    }
    forall q | q in queue[1..] + pushed
      ensures SeenBy(panos, distance, members', q)
    {
      if q in pushed {
        assert members'[|members|] == current;
      } else {
        assert q in queue;
        var j :| 0 <= j < |members| && Near(panos, distance, members[j], q);
        assert members'[j] == members[j];
      }
    }
  }

  /** A search from an unvisited panorama visits it first. */
  lemma BfsStartsAt(panos: OMap<string, Pano>, distance: (LatLng, LatLng) -> real, b: Buckets,
                    panoIds: seq<string>, p: string, visited: set<string>)
    requires p in panoIds && p !in visited
    ensures var s := Bfs(panos, distance, b, panoIds, [p], visited, [], []);
            |s.members| >= 1 && s.members[0] == p
  {
    var pushed := Neighbours(panos, distance, p, panoIds, visited + {p}, [p]);
    assert [p][1..] + pushed == pushed;
    var s := Bfs(panos, distance, b, panoIds, pushed, visited + {p}, [p],
                 [] + Types.DetectionIdsOfDetections(Bucket(b, p)));
    assert s.members[..1] == [p];
  }

  /** Every cluster the outer loop reports is connected. */
  lemma {:induction false} GatherChained(panos: OMap<string, Pano>, distance: (LatLng, LatLng) -> real, b: Buckets,
                                         panoIds: seq<string>, i: nat, visited: set<string>, acc: seq<PanoCluster>)
    requires i <= |panoIds|
    requires GatherInv(panos, distance, b, panoIds, visited, acc)
    requires AllChained(panos, distance, acc)
    ensures AllChained(panos, distance, Gather(panos, distance, b, panoIds, i, visited, acc))
    decreases |panoIds| - i
  {
    if i < |panoIds| {
      if panoIds[i] in visited {
        GatherChained(panos, distance, b, panoIds, i + 1, visited, acc);
      } else {
        var s := Bfs(panos, distance, b, panoIds, [panoIds[i]], visited, [], []);
        assert s.members[0..] == s.members;
        BfsChained(panos, distance, b, panoIds, [panoIds[i]], visited, [], []);
        if |s.members| >= 2 {
          AddCluster(panos, distance, b, panoIds, visited, acc, s);
          var acc' := acc + [MakeCluster(s.members, s.detectionIds, b)];
          assert forall k :: 0 <= k < |acc| ==> acc'[k] == acc[k];
          GatherChained(panos, distance, b, panoIds, i + 1, s.visited, acc');
        } else {
          SkipSingleton(panos, distance, b, panoIds, visited, acc, s);
          GatherChained(panos, distance, b, panoIds, i + 1, s.visited, acc);
        }
      }
    }
  }

  /** A distance that does not depend on the direction of travel, as the
      haversine distance does not. */
  ghost predicate Symmetric(distance: (LatLng, LatLng) -> real) {
    forall x: LatLng, y: LatLng :: distance(x, y) == distance(y, x)
  }

  lemma NearSymmetric(panos: OMap<string, Pano>, distance: (LatLng, LatLng) -> real, p: string, q: string)
    requires Symmetric(distance)
    ensures Near(panos, distance, p, q) <==> Near(panos, distance, q, p)
  {
    match (Get(panos, p), Get(panos, q))
    case (Some(a), Some(c)) =>
      assert distance(LatLng(a.lat, a.lng), LatLng(c.lat, c.lng)) == distance(LatLng(c.lat, c.lng), LatLng(a.lat, a.lng));
    case _ =>
  }

  /** No other candidate panorama lies near `p`. */
  ghost predicate Isolated(panos: OMap<string, Pano>, distance: (LatLng, LatLng) -> real, panoIds: seq<string>, p: string) {
    forall q :: q in panoIds && q != p ==> !Near(panos, distance, p, q)
  }

  /** `p` belongs to one of the clusters. */
  predicate InSome(cs: seq<PanoCluster>, p: string) {
    exists k :: 0 <= k < |cs| && p in cs[k].panoIds
  }

  /** Every panorama of `among` that `panoIds` offers is in a cluster of `cs`
      or has no other candidate near it. */
  ghost predicate Accounted(panos: OMap<string, Pano>, distance: (LatLng, LatLng) -> real, panoIds: seq<string>,
                            among: set<string>, cs: seq<PanoCluster>) {
    forall m :: m in among && m in panoIds ==> InSome(cs, m) || Isolated(panos, distance, panoIds, m)
  }

  /** A search that reached two or more panoramas accounts for all of them
      with the cluster it adds. */
  lemma AccountCluster(panos: OMap<string, Pano>, distance: (LatLng, LatLng) -> real, panoIds: seq<string>,
                       visited: set<string>, acc: seq<PanoCluster>, members: seq<string>, c: PanoCluster)
    requires Accounted(panos, distance, panoIds, visited, acc)
    requires c.panoIds == members
    ensures Accounted(panos, distance, panoIds, visited + Elements(members), acc + [c])
  {
    var acc' := acc + [c];
    forall m | m in visited + Elements(members) && m in panoIds
      ensures InSome(acc', m) || Isolated(panos, distance, panoIds, m)
    {
      if m in Elements(members) {
        assert acc'[|acc|] == c;
      } else if InSome(acc, m) {
        var k :| 0 <= k < |acc| && m in acc[k].panoIds;
        assert acc'[k] == acc[k];
      }
    }
  }

  /** With a symmetric distance, a search from `p` that reached only `p`
      shows that no other candidate is near `p`. */
  lemma AccountSingleton(panos: OMap<string, Pano>, distance: (LatLng, LatLng) -> real, panoIds: seq<string>,
                         visited: set<string>, acc: seq<PanoCluster>, p: string, visited': set<string>)
    requires Symmetric(distance)
    requires p in panoIds && p !in visited && visited' == visited + {p}
    requires Closed(panos, distance, panoIds, visited) && Closed(panos, distance, panoIds, visited')
    requires Accounted(panos, distance, panoIds, visited, acc)
    ensures Accounted(panos, distance, panoIds, visited', acc)
  {
    forall q | q in panoIds && q != p
      ensures !Near(panos, distance, p, q)
    {
      NearSymmetric(panos, distance, p, q);
      if q in visited {
        assert !Near(panos, distance, q, p);
      }
    }
    assert Isolated(panos, distance, panoIds, p);
  }

  /** With a symmetric distance, every candidate panorama that has another
      near it ends up in a cluster. */
  lemma {:induction false} GatherCovers(panos: OMap<string, Pano>, distance: (LatLng, LatLng) -> real, b: Buckets,
                                        panoIds: seq<string>, i: nat, visited: set<string>, acc: seq<PanoCluster>)
    requires Symmetric(distance)
    requires i <= |panoIds|
    requires GatherInv(panos, distance, b, panoIds, visited, acc)
    requires forall j :: 0 <= j < i ==> panoIds[j] in visited
    requires Accounted(panos, distance, panoIds, visited, acc)
    ensures Accounted(panos, distance, panoIds, Elements(panoIds), Gather(panos, distance, b, panoIds, i, visited, acc))
    decreases |panoIds| - i, 1
  {
    if i == |panoIds| {
      forall m | m in panoIds
        ensures m in visited
      {
        var j :| 0 <= j < |panoIds| && panoIds[j] == m;
      }
    } else if panoIds[i] in visited {
      GatherCovers(panos, distance, b, panoIds, i + 1, visited, acc);
    } else {
      GatherCoversFrom(panos, distance, b, panoIds, i, visited, acc);
    }
  }

  /** `GatherCovers` for a step that starts a search. */
  lemma {:induction false} GatherCoversFrom(panos: OMap<string, Pano>, distance: (LatLng, LatLng) -> real, b: Buckets,
                                            panoIds: seq<string>, i: nat, visited: set<string>, acc: seq<PanoCluster>)
    requires Symmetric(distance)
    requires i < |panoIds| && panoIds[i] !in visited
    requires GatherInv(panos, distance, b, panoIds, visited, acc)
    requires forall j :: 0 <= j < i ==> panoIds[j] in visited
    requires Accounted(panos, distance, panoIds, visited, acc)
    ensures Accounted(panos, distance, panoIds, Elements(panoIds), Gather(panos, distance, b, panoIds, i, visited, acc))
    decreases |panoIds| - i, 0
  {
    {
      var p := panoIds[i];
      var s := Bfs(panos, distance, b, panoIds, [p], visited, [], []);
      assert s.members[0..] == s.members;
      BfsStartsAt(panos, distance, b, panoIds, p, visited);
      assert s.visited == visited + Elements(s.members);
      assert p in s.visited by {
        assert s.members[0] == p;
      }
      assert forall j :: 0 <= j < i + 1 ==> panoIds[j] in s.visited;
      if |s.members| >= 2 {
        AddCluster(panos, distance, b, panoIds, visited, acc, s);
        var c := MakeCluster(s.members, s.detectionIds, b);
        AccountCluster(panos, distance, panoIds, visited, acc, s.members, c);
        GatherCovers(panos, distance, b, panoIds, i + 1, s.visited, acc + [c]);
      } else {
        SkipSingleton(panos, distance, b, panoIds, visited, acc, s);
        assert s.members == [p];
        AccountSingleton(panos, distance, panoIds, visited, acc, p, s.visited);
        GatherCovers(panos, distance, b, panoIds, i + 1, s.visited, acc);
      }
    }
  }

  /** Clusters in non-increasing score order. */
  predicate SortedByScore(cs: seq<PanoCluster>) {
    forall i, j :: 0 <= i < j < |cs| ==> cs[i].score >= cs[j].score
  }

  /** Insert `c` into a non-increasing sequence after every element of equal
      or higher score. */
  function InsertByScore(c: PanoCluster, s: seq<PanoCluster>): (r: seq<PanoCluster>)
    requires SortedByScore(s)
    ensures SortedByScore(r)
    ensures multiset(r) == multiset(s) + multiset{c}
    decreases |s|
  {
    if |s| == 0 || c.score > s[0].score then
      [c] + s
    else
      var rest := InsertByScore(c, s[1..]);
      InsertStep(c, s, rest);
      [s[0]] + rest
  }

  lemma InsertStep(c: PanoCluster, s: seq<PanoCluster>, rest: seq<PanoCluster>)
    requires |s| > 0 && c.score <= s[0].score && SortedByScore(s)
    requires SortedByScore(rest) && multiset(rest) == multiset(s[1..]) + multiset{c}
    ensures SortedByScore([s[0]] + rest)
    ensures multiset([s[0]] + rest) == multiset(s) + multiset{c}
  {
    assert s == [s[0]] + s[1..];
    forall k | 0 <= k < |rest|
      ensures rest[k].score <= s[0].score
    {
      assert rest[k] in multiset(rest);
      if rest[k] != c {
        assert rest[k] in multiset(s[1..]);
        assert rest[k] in s[1..];
      }
    }
  }

  /** `clusters.sort((a, b) => b.score - a.score)`: a stable sort by
      decreasing score. */
  function SortByScore(cs: seq<PanoCluster>): (r: seq<PanoCluster>)
    ensures SortedByScore(r)
    ensures multiset(r) == multiset(cs)
    decreases |cs|
  {
    if |cs| == 0 then []
    else
      var last := cs[|cs| - 1];
      assert cs == cs[..|cs| - 1] + [last];
      InsertByScore(last, SortByScore(cs[..|cs| - 1]))
  }

  /** The clusters of score `v`, in their order in `cs`. */
  function WithScore(cs: seq<PanoCluster>, v: int): seq<PanoCluster>
    decreases |cs|
  {
    if |cs| == 0 then []
    else (if cs[0].score == v then [cs[0]] else []) + WithScore(cs[1..], v)
  }

  lemma {:induction false} WithScoreAppend(x: seq<PanoCluster>, y: seq<PanoCluster>, v: int)
    ensures WithScore(x + y, v) == WithScore(x, v) + WithScore(y, v)
    decreases |x|
  {
    if |x| > 0 {
      assert (x + y)[0] == x[0];
      assert (x + y)[1..] == x[1..] + y;
      WithScoreAppend(x[1..], y, v);
    } else {
      assert x + y == y;
    }
  }

  lemma {:induction false} WithScoreAbove(s: seq<PanoCluster>, v: int)
    requires forall k :: 0 <= k < |s| ==> s[k].score < v
    ensures WithScore(s, v) == []
    decreases |s|
  {
    if |s| > 0 {
      WithScoreAbove(s[1..], v);
    }
  }

  lemma InitThenLast(cs: seq<PanoCluster>)
    requires |cs| > 0
    ensures cs == cs[..|cs| - 1] + [cs[|cs| - 1]]
  {
  }

  lemma WithScoreSingle(c: PanoCluster, v: int)
    ensures WithScore([c], v) == if c.score == v then [c] else []
  {
    assert [c][1..] == [];
  }

  /** Inserting `c` puts it after every cluster of its own score. */
  lemma {:induction false} InsertIsStable(c: PanoCluster, s: seq<PanoCluster>, v: int)
    requires SortedByScore(s)
    ensures WithScore(InsertByScore(c, s), v) == WithScore(s, v) + (if c.score == v then [c] else [])
    decreases |s|
  {
    var r := InsertByScore(c, s);
    if |s| == 0 || c.score > s[0].score {
      assert r == [c] + s && r[1..] == s;
      if c.score == v {
        WithScoreAbove(s, v);
      }
    } else {
      assert SortedByScore(s[1..]);
      InsertIsStable(c, s[1..], v);
      assert r[0] == s[0] && r[1..] == InsertByScore(c, s[1..]);
    }
  }

  /** The sort is stable: for every score, the clusters of that score keep
      their relative order. With the multiset clause of `SortByScore`, the
      result is the one stable ordering by non-increasing score. */
  lemma {:induction false} SortIsStable(cs: seq<PanoCluster>, v: int)
    ensures WithScore(SortByScore(cs), v) == WithScore(cs, v)
    decreases |cs|
  {
    if |cs| > 0 {
      var init := cs[..|cs| - 1];
      var last := cs[|cs| - 1];
      var tail := if last.score == v then [last] else [];
      SortIsStable(init, v);
      InsertIsStable(last, SortByScore(init), v);
      assert SortByScore(cs) == InsertByScore(last, SortByScore(init));
      assert WithScore(SortByScore(cs), v) == WithScore(init, v) + tail;
      InitThenLast(cs);
      WithScoreAppend(init, [last], v);
      WithScoreSingle(last, v);
    }
  }

  /** Inserting a cluster disjoint from every cluster of a pairwise disjoint
      list keeps the list pairwise disjoint. */
  lemma {:induction false} InsertKeepsDisjoint(c: PanoCluster, s: seq<PanoCluster>)
    requires SortedByScore(s) && PairwiseDisjoint(s)
    requires forall k :: 0 <= k < |s| ==> Disjoint(c, s[k]) && Disjoint(s[k], c)
    ensures PairwiseDisjoint(InsertByScore(c, s))
    decreases |s|
  {
    var r := InsertByScore(c, s);
    if |s| == 0 || c.score > s[0].score {
      assert r == [c] + s;
    } else {
      assert PairwiseDisjoint(s[1..]) by {
        assert forall i, j :: 0 <= i < j < |s[1..]| ==> s[1..][i] == s[i + 1] && s[1..][j] == s[j + 1];
      }
      InsertKeepsDisjoint(c, s[1..]);
      var rest := InsertByScore(c, s[1..]);
      assert r == [s[0]] + rest;
      HeadDisjointFromInsert(c, s, rest);
      ConsKeepsDisjoint(s[0], rest);
    }
  }

  lemma HeadDisjointFromInsert(c: PanoCluster, s: seq<PanoCluster>, rest: seq<PanoCluster>)
    requires |s| > 0 && PairwiseDisjoint(s) && Disjoint(s[0], c)
    requires multiset(rest) == multiset(s[1..]) + multiset{c}
    ensures forall k :: 0 <= k < |rest| ==> Disjoint(s[0], rest[k])
  {
    forall k | 0 <= k < |rest|
      ensures Disjoint(s[0], rest[k])
    {
      assert rest[k] in multiset(rest);
      if rest[k] != c {
        assert rest[k] in multiset(s[1..]);
        var j :| 0 <= j < |s[1..]| && s[1..][j] == rest[k];
        assert s[j + 1] == rest[k];
      }
    }
  }

  lemma ConsKeepsDisjoint(x: PanoCluster, rest: seq<PanoCluster>)
    requires PairwiseDisjoint(rest)
    requires forall k :: 0 <= k < |rest| ==> Disjoint(x, rest[k])
    ensures PairwiseDisjoint([x] + rest)
  {
    var r := [x] + rest;
    forall i, j | 0 <= i < j < |r|
      ensures Disjoint(r[i], r[j])
    {
      assert r[j] == rest[j - 1];
      if i > 0 {
        assert r[i] == rest[i - 1];
      }
    }
  }

  /** Sorting by score keeps the clusters pairwise disjoint. */
  lemma {:induction false} SortKeepsDisjoint(cs: seq<PanoCluster>)
    requires PairwiseDisjoint(cs)
    ensures PairwiseDisjoint(SortByScore(cs))
    decreases |cs|
  {
    if |cs| > 0 {
      var init := cs[..|cs| - 1];
      var last := cs[|cs| - 1];
      SortKeepsDisjoint(init);
      var sorted := SortByScore(init);
      forall k | 0 <= k < |sorted|
        ensures Disjoint(last, sorted[k]) && Disjoint(sorted[k], last)
      {
        assert sorted[k] in multiset(init);
        var j :| 0 <= j < |init| && init[j] == sorted[k];
        assert cs[j] == sorted[k];
      }
      InsertKeepsDisjoint(last, sorted);
    }
  }

  /** A property of every cluster survives sorting. */
  lemma SortKeepsElements(cs: seq<PanoCluster>, x: PanoCluster)
    ensures x in SortByScore(cs) <==> x in cs
  {
    assert x in multiset(SortByScore(cs)) <==> x in multiset(cs);
  }

  /** The bucket of a panorama holds exactly its free detections. */
  lemma BucketIsFree(b: Buckets, free: seq<Detection>, p: string)
    requires BucketsMatch(b, free)
    ensures Bucket(b, p) == OnPano(free, p)
  {
    assert Get(b, p) == ExpectedBucket(free, p);
  }

  /** `clusterPanos`: bucket the free detections, keep the panoramas that
      have some, group them into proximity components of two or more, and
      rank the components by score. */
  function ClusterPanos(st: AssignState, distance: (LatLng, LatLng) -> real, claimed: set<string>): seq<PanoCluster> {
    var b := BuildDetectionBuckets(Values(st.detectionsById), claimed);
    var ids := PanosWithFree(Keys(st.panosById), b);
    SortByScore(Gather(st.panosById, distance, b, ids, 0, {}, []))
  }

  /** What `clusterPanos` promises: the candidate panoramas are exactly the
      known ones with a free detection; every cluster is well formed (two or
      more distinct candidate panoramas, exactly their free detection ids,
      the documented score), connected through the proximity relation in
      visiting order, and closed under mutual proximity; no panorama is in
      two clusters; and the list is ranked by non-increasing score. */
  lemma ClusterPanosSpec(st: AssignState, distance: (LatLng, LatLng) -> real, claimed: set<string>)
    ensures var r := ClusterPanos(st, distance, claimed);
            var free := Unassigned(Values(st.detectionsById), claimed);
            var b := BuildDetectionBuckets(Values(st.detectionsById), claimed);
            var ids := PanosWithFree(Keys(st.panosById), b);
            && (forall p :: p in ids <==> p in Keys(st.panosById) && OnPano(free, p) != [])
            && (forall p :: Bucket(b, p) == OnPano(free, p))
            && (forall k :: 0 <= k < |r| ==> WellFormed(r[k], b, ids))
            && (forall k :: 0 <= k < |r| ==> ComponentClosed(st.panosById, distance, ids, r[k]))
            && AllChained(st.panosById, distance, r)
            && PairwiseDisjoint(r)
            && SortedByScore(r)
  {
    var free := Unassigned(Values(st.detectionsById), claimed);
    var b := BuildDetectionBuckets(Values(st.detectionsById), claimed);
    var ids := PanosWithFree(Keys(st.panosById), b);
    var gathered := Gather(st.panosById, distance, b, ids, 0, {}, []);
    var r := SortByScore(gathered);
    SortKeepsDisjoint(gathered);
    forall p
      ensures Bucket(b, p) == OnPano(free, p)
    {
      BucketIsFree(b, free, p);
    }
    GatherChained(st.panosById, distance, b, ids, 0, {}, []);
    forall k | 0 <= k < |r|
      ensures WellFormed(r[k], b, ids) && ComponentClosed(st.panosById, distance, ids, r[k])
      ensures Chained(st.panosById, distance, r[k].panoIds)
    {
      SortKeepsElements(gathered, r[k]);
      var j :| 0 <= j < |gathered| && gathered[j] == r[k];
    }
  }

  /** With a symmetric distance (the haversine distance is), a candidate
      panorama is in some cluster exactly when another candidate lies near
      it: the clusters cover every panorama that is not on its own. */
  lemma ClusterPanosCovers(st: AssignState, distance: (LatLng, LatLng) -> real, claimed: set<string>)
    requires Symmetric(distance)
    ensures var r := ClusterPanos(st, distance, claimed);
            var b := BuildDetectionBuckets(Values(st.detectionsById), claimed);
            var ids := PanosWithFree(Keys(st.panosById), b);
            forall p :: InSome(r, p) <==> p in ids && !Isolated(st.panosById, distance, ids, p)
  {
    var b := BuildDetectionBuckets(Values(st.detectionsById), claimed);
    var ids := PanosWithFree(Keys(st.panosById), b);
    var gathered := Gather(st.panosById, distance, b, ids, 0, {}, []);
    GatheredCovers(st.panosById, distance, b, ids);
    forall p
      ensures InSome(SortByScore(gathered), p) <==> InSome(gathered, p)
    {
      SortKeepsInSome(gathered, p);
    }
  }

  /** The outer loop's clusters hold exactly the candidates that are not on
      their own. */
  lemma GatheredCovers(panos: OMap<string, Pano>, distance: (LatLng, LatLng) -> real, b: Buckets, ids: seq<string>)
    requires Symmetric(distance)
    ensures var g := Gather(panos, distance, b, ids, 0, {}, []);
            forall p :: InSome(g, p) <==> p in ids && !Isolated(panos, distance, ids, p)
  {
    var g := Gather(panos, distance, b, ids, 0, {}, []);
    GatherCovers(panos, distance, b, ids, 0, {}, []);
    GatherChained(panos, distance, b, ids, 0, {}, []);
    forall p | InSome(g, p)
      ensures p in ids && !Isolated(panos, distance, ids, p)
    {
      var k :| 0 <= k < |g| && p in g[k].panoIds;
      assert WellFormed(g[k], b, ids) && Chained(panos, distance, g[k].panoIds);
      ChainedNotIsolated(panos, distance, ids, g[k].panoIds, p);
    }
    forall p | p in ids && !Isolated(panos, distance, ids, p)
      ensures InSome(g, p)
    {
      assert p in Elements(ids);
    }
  }

  /** Sorting moves clusters but keeps every panorama's membership. */
  lemma SortKeepsInSome(cs: seq<PanoCluster>, p: string)
    ensures InSome(SortByScore(cs), p) <==> InSome(cs, p)
  {
    var r := SortByScore(cs);
    if InSome(r, p) {
      var k :| 0 <= k < |r| && p in r[k].panoIds;
      SortKeepsElements(cs, r[k]);
      var j :| 0 <= j < |cs| && cs[j] == r[k];
    }
    if InSome(cs, p) {
      var j :| 0 <= j < |cs| && p in cs[j].panoIds;
      SortKeepsElements(cs, cs[j]);
      var k :| 0 <= k < |r| && r[k] == cs[j];
    }
  }

  /** A member of a connected list of two or more distinct candidates has
      another candidate near it, when nearness is symmetric. */
  lemma ChainedNotIsolated(panos: OMap<string, Pano>, distance: (LatLng, LatLng) -> real, panoIds: seq<string>,
                           members: seq<string>, p: string)
    requires Symmetric(distance)
    requires Chained(panos, distance, members) && |members| >= 2 && NoDup(members)
    requires forall m :: m in members ==> m in panoIds
    requires p in members
    ensures !Isolated(panos, distance, panoIds, p)
  {
    var k :| 0 <= k < |members| && members[k] == p;
    if k == 0 {
      assert SeenBy(panos, distance, members[..1], members[1]);
      assert members[..1][0] == p;
      assert members[1] != p && members[1] in panoIds;
    } else {
      assert SeenBy(panos, distance, members[..k], p);
      var j :| 0 <= j < k && Near(panos, distance, members[..k][j], p);
      var q := members[j];
      assert members[..k][j] == q && q != p && q in panoIds;
      NearSymmetric(panos, distance, q, p);
    }
  }
}
