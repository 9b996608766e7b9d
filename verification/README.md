# PanoObjectLocator assignment core in Dafny

PanoObjectLocator is a browser tool for locating street objects from panoramas. Each panorama has bounding boxes ("detections"). The user groups the detections of one physical object into an object. An object's observations (one bearing per detection) are triangulated into a position, and its quality is the RMS residual. This project models the discrete logic behind that and proves what it promises:

- **Seed-grow auto-assignment** (`src/state/seedGrow.ts`). The steps are:
  - bucket the free detections by panorama;
  - group panoramas into proximity components with a breadth-first search;
  - grow an observation list greedily under the pano-uniqueness, angle, RMS and shift tests;
  - choose the best seed pair per cluster and the best cluster;
  - fall back to a single observation when nothing better is found.
- **The older greedy assigner** (`src/state/autoAssign.ts`): up to 500 candidates per round, the first minimal-RMS candidate wins, and one shared set of claimed detections is kept across objects.
- **The two reducers**:
  - `src/state/store.tsx` adds, removes and reassigns observations and recomputes object summaries.
  - `src/state/store.ts` is the older, plainer one.
  - The selectors of `src/state/selectors.ts` read the state type of `src/state/store.ts`.
- **Small pure helpers**:
  - column validation with aliases (`src/data/schema.ts`);
  - the row folds of `src/data/projectIO.ts`;
  - the colour palette (`src/state/colors.ts`);
  - detection ids (`src/utils/ids.ts`);
  - box-to-bearing conversion (`src/geo/bearing.ts`);
  - the quality heuristic (`src/geo/quality.ts`).

Modelling choices:

- **Records.** A JavaScript `Record` is an `OrderedMap.OMap`, a sequence of key/value pairs with unique keys. Writing an existing key replaces it in place; writing a new key appends it. So `Object.keys` / `Object.values` order, which decides candidate order and therefore the greedy outcome, is kept.
- **Geometry is a parameter.**
  - The least-squares solve inside `triangulate` is `solve: seq<Observation> -> Option<Fix>`. `Triangulation.Triangulate` adds the source's guard against fewer than two observations and the shape of its result.
  - The haversine distance is a parameter `(LatLng, LatLng) -> real`, compared with the 80 m clustering constant.
- **Nondeterministic values are inputs.**
  - The random observation id and the timestamp of each made observation are a `Stamp`.
  - The newer store receives `Env(solve, now)`.
  - How a number prints (`String(n)`) is a parameter `show`.
- **The `addObject` id can collide.** Both stores name a new object `obj-(n+1)`, where n is the number of objects, and they overwrite an existing object of that name. In `src/state/store.ts` the new object is coloured by `buildColorMap([id, ...keys])`. When the id is fresh it takes position 0 of that list, and so the first palette colour (`LegacyStore.FreshObjectColor`). When the id is already taken by the j-th object, the later write of the same id wins and it takes position j+1, whose palette index is (j+1) mod 10 (`LegacyStore.TakenObjectColor`).

## Model

| member | source | states |
|---|---|---|
| Triangulation.Triangulate | src/geo/triangulation.ts:11-71 | a result exists exactly when there are two or more observations and the solver succeeds; it is then the solver's point and RMS, counts every observation and is stable |
| Bearing.BearingFromBox | src/geo/bearing.ts:1-6 | the box centre is the midpoint of its edges, and the bearing lies in [0, 360) whenever heading + relative + 360 is non-negative |
| Bearing.RelativeAzimuthRange | src/geo/bearing.ts:3 | a centre inside an image of positive width is at most half a turn from the heading |
| Bearing.BearingIsNormalisedSum | src/geo/bearing.ts:4 | the bearing differs from heading + relative by a whole number of turns |
| Bearing.CentredBoxFollowsHeading | src/geo/bearing.ts:2-4 | a box centred in the image points along the heading, normalised as (heading + 360) mod 360 |
| Quality.RmsFromObservations | src/geo/quality.ts:1-4 | undefined exactly below two observations; otherwise between 0.5 and 2.5, and 2.5 at two |
| Quality.QualityNonIncreasing | src/geo/quality.ts:3 | more observations never raise the expected RMS |
| Quality.QualityRegimes | src/geo/quality.ts:3 | the value is 5/n up to ten observations and 0.5 from ten on |
| AssignCommon.AngleDiffSelf | src/state/autoAssign.ts:19-22 | a bearing differs from itself by zero degrees |
| AssignCommon.AngleDiffIsCircularDistance | src/state/seedGrow.ts:33-36 | for compass bearings the difference is the shorter way round the circle, so it is symmetric and at most 180 |
| AssignCommon.MakeObservation | src/state/seedGrow.ts:55-72 | the observation belongs to the given object, carries the detection's ids and box, the centre of its box, the panorama's position and the stamp, and its bearing is the box's bearing from the panorama (`BearingFromBox`) |
| AssignCommon.UnassignedMembers | src/state/autoAssign.ts:36-38 | the unassigned detections are exactly the detections whose id is not claimed |
| AssignCommon.SomeOnPano | src/state/seedGrow.ts:50 | the scan answers yes exactly when some existing observation is on the candidate's panorama |
| AssignCommon.EveryWide | src/state/seedGrow.ts:52 | the scan answers yes exactly when every existing bearing is at least the minimum angle away |
| AssignCommon.ClaimedBy | src/state/autoAssign.ts:105-109 | the initial claimed set contains the detection id of every observation in every list |
| AssignCommon.ClaimedByIsUsed | src/state/autoAssign.ts:107-109 | every claimed id is used by some observation of some list |
| AssignCommon.PutKeepsOneUse | src/state/autoAssign.ts:97-101 | writing back a list that only appended unclaimed, mutually distinct detections keeps every detection in at most one list |
| PanoClusters.BuildDetectionBuckets | src/state/seedGrow.ts:74-82 | a panorama has a bucket exactly when it has a free detection, and its bucket holds all its free detections in iteration order |
| PanoClusters.PanosWithFree | src/state/seedGrow.ts:86 | the candidate panoramas are exactly the known ones with a non-empty bucket, without repeats |
| PanoClusters.Neighbours | src/state/seedGrow.ts:101-109 | every enqueued panorama is an unvisited candidate that the current one sees within 80 m, and every unvisited candidate that is not yet in the cluster and lies within 80 m is enqueued |
| PanoClusters.Bfs | src/state/seedGrow.ts:95-110 | the search only adds unvisited candidates, each once, collects exactly their free detection ids, and leaves no visited panorama with an unvisited neighbour |
| PanoClusters.BfsChained | src/state/seedGrow.ts:95-110 | every panorama the search adds after the first is seen within 80 m by one added before it |
| PanoClusters.AddCluster | src/state/seedGrow.ts:111-116 | a component of two or more panoramas becomes a well-formed cluster, disjoint from the earlier ones and closed under proximity |
| PanoClusters.Gather | src/state/seedGrow.ts:90-117 | every cluster found is well formed and closed under mutual proximity (a panorama that a member sees within 80 m, and that sees the member in return, is a member), and no panorama is in two clusters |
| PanoClusters.GatherChained | src/state/seedGrow.ts:90-117 | every cluster found is connected: each panorama after the first is seen within 80 m by an earlier one |
| PanoClusters.AccountSingleton | src/state/seedGrow.ts:111 | with a symmetric distance, a search that reached only its start shows that no other candidate lies within 80 m of it, so dropping it loses no neighbour |
| PanoClusters.GatherCovers | src/state/seedGrow.ts:90-117 | with a symmetric distance, every candidate panorama is in some cluster or has no other candidate within 80 m |
| PanoClusters.GatheredCovers | src/state/seedGrow.ts:90-117 | with a symmetric distance, a candidate is in some cluster exactly when another candidate lies within 80 m of it |
| PanoClusters.SortByScore | src/state/seedGrow.ts:119 | the result is a permutation of the clusters in non-increasing score order |
| PanoClusters.InsertIsStable | src/state/seedGrow.ts:119 | an inserted cluster lands after every cluster of its own score and leaves their order alone |
| PanoClusters.SortIsStable | src/state/seedGrow.ts:119 | the sort is stable: for every score, the clusters of that score keep their input order |
| PanoClusters.SortKeepsDisjoint | src/state/seedGrow.ts:119 | sorting keeps the clusters pairwise disjoint |
| PanoClusters.ClusterPanosSpec | src/state/seedGrow.ts:84-120 | the clusters have two or more free-detection panoramas each, exactly their free detection ids and the documented score; each is connected in visiting order and closed under mutual proximity; no two share a panorama; and they are sorted by non-increasing score |
| PanoClusters.ClusterPanosCovers | src/state/seedGrow.ts:84-120 | with a symmetric distance, a candidate panorama is in some cluster exactly when another candidate lies within 80 m of it |
| SeedGrow.CanUseCandidate | src/state/seedGrow.ts:49-53 | a shared panorama refuses the candidate; otherwise a non-positive minimum accepts it, and a positive one accepts it exactly when every bearing is far enough |
| SeedGrow.ShortcutIsHarmless | src/state/seedGrow.ts:51 | the early return for a non-positive minimum gives the same answer as checking every bearing |
| SeedGrow.TryCandidate | src/state/seedGrow.ts:133-149 | a candidate is taken exactly when its panorama is known and it passes the pano, angle, solvable, RMS and shift tests |
| SeedGrow.GrowSnoc | src/state/seedGrow.ts:131-150 | growing over one more candidate is growing over the others and then considering it: it is skipped exactly when the list is full, its panorama is unknown, or it is not acceptable after the list grown so far, and appended otherwise |
| SeedGrow.GrowClusterStep | src/state/seedGrow.ts:122-153 | with no candidates the result is the seed, and each further candidate is appended exactly when the list is below `maxObsPerObject`, its panorama is known and its observation is acceptable after the list so far; this fixes the result for every candidate list |
| SeedGrow.GrowCluster | src/state/seedGrow.ts:122-153 | the seed is a prefix of the result; each appended observation was acceptable after the ones before it and comes from a candidate; the length is at most max(seed, maxObsPerObject); the reported RMS is the final solution's, or 0 |
| SeedGrow.GrowKeepsPanosDistinct | src/state/seedGrow.ts:136 | growing a list with distinct panoramas keeps them distinct |
| SeedAssign.Pick | src/state/seedGrow.ts:175-200 | the pick is the first option that is longer than every earlier one, or as long and with strictly smaller RMS; nothing is picked when no option beats the starting size |
| SeedAssign.FirstOfTiesWins | src/state/seedGrow.ts:194-195 | among options of equal length and RMS, the earliest one wins |
| SeedAssign.SeedPairsSpec | src/state/seedGrow.ts:165-173 | the seed pairs are exactly the pairs of one of the first three free detections of a cluster panorama with one of the first three of a later one |
| SeedAssign.SeedPairsAreFreeAndApart | src/state/seedGrow.ts:165-173 | both halves of a seed pair are free, on cluster panoramas, and on different panoramas |
| SeedAssign.FreeDetections | src/state/seedGrow.ts:189-191 | a detection is a candidate exactly when some named id maps to it and it is unclaimed |
| SeedAssign.FreeDetectionsSingle | src/state/seedGrow.ts:189-191 | one named id gives its detection when that is known and unclaimed, and nothing otherwise |
| SeedAssign.FreeDetectionsAppend | src/state/seedGrow.ts:189-191 | the candidates of two id lists in a row are the first list's followed by the second's, so the candidates keep the order of the named ids |
| SeedAssign.PairSeed | src/state/seedGrow.ts:183-185 | the seed is two observations of the object, one for each detection of the pair, in pair order |
| SeedAssign.SeedResult | src/state/seedGrow.ts:180-193 | a pair yields a result exactly when both panoramas are known; that result is the growth of the pair's seed over the candidates, so it extends the seed by acceptable observations of candidates, has at most max(2, maxObsPerObject) entries, and reports the final solution's RMS |
| SeedAssign.BestSeedForCluster | src/state/seedGrow.ts:155-203 | the best seed has two or more observations, all free, and is the pick among the seed results |
| SeedAssign.BestSeedNone | src/state/seedGrow.ts:179-182 | no seed is found exactly when no seed pair has both panoramas known |
| SeedAssign.MergeByDetection | src/state/seedGrow.ts:230-232 | the merged list has one observation per detection id, in order of first appearance, and the last observation written for that id |
| SeedAssign.MergeKeepsExisting | src/state/seedGrow.ts:230-232 | merging after at most one existing observation keeps it first and leaves no duplicate detection |
| SeedAssign.PickIsLongest | src/state/seedGrow.ts:236-240 | the picked option is at least as long as every option |
| SeedAssign.SeedOfTwoIsPicked | src/state/seedGrow.ts:236-243 | from fewer than two observations, when some option has two or more, the pick exists and itself has two or more |
| SeedAssign.MergeOption | src/state/seedGrow.ts:228-235 | a cluster has an option exactly when it has a best seed; the option is that seed merged after the existing observations, ranked by the merged list's RMS |
| SeedAssign.SeedOrFallbackCases | src/state/seedGrow.ts:224-252 | when some cluster's option has two or more observations the result is the ranking's pick; otherwise it is the fallback |
| SeedAssign.Fallback | src/state/seedGrow.ts:244-252 | a lone observation gains the observation of the first free candidate when that candidate's panorama is known; in every other case the list is returned unchanged |
| SeedAssign.SeedGrowAssignCases | src/state/seedGrow.ts:205-252 | the four outcomes: two or more observations give exactly their growth over the free cluster detections; else a merged option of two or more gives the pick; else a lone observation gains the first free candidate on a known panorama; else the list is unchanged |
| SeedAssign.SeedGrowAssign | src/state/seedGrow.ts:205-252 | with two or more observations the result extends them by acceptable observations within the length bound; otherwise it is the existing list, a merged seed list of two or more, or the lone observation plus one free candidate; nothing claimed is ever added |
| AutoAssign.CanUseCandidate | src/state/autoAssign.ts:24-27 | a shared panorama refuses the candidate, otherwise it is accepted exactly when every bearing is far enough; an empty list accepts anything |
| AutoAssign.CanUseCandidateAgrees | src/state/autoAssign.ts:24-27 | the older test agrees with the seed-grow one for every minimum angle |
| AutoAssign.SimulateRms | src/state/autoAssign.ts:29-34 | the trial RMS is infinite for an empty list or a failed solve, and otherwise the solver's non-negative RMS |
| AutoAssign.Offer | src/state/autoAssign.ts:79-87 | a detection on a known panorama is offered exactly when its candidate is usable and, once the list would have two entries, its trial RMS is within the bound |
| AutoAssign.RoundIsFirstMin | src/state/autoAssign.ts:70-93 | a round picks the first offer of least RMS among at most 500 unclaimed detections, in order |
| AutoAssign.Greedy | src/state/autoAssign.ts:70-99 | the rounds keep the list as a prefix, add one pick per round, claim each pick at once, stop at maxObsPerObject or when no candidate qualifies, and never exceed max(original, maxObsPerObject) |
| AutoAssign.PicksAreFresh | src/state/autoAssign.ts:76-98 | every added detection was unclaimed when picked, and no detection is added twice |
| AutoAssign.GreedyAssign | src/state/autoAssign.ts:59-102 | the object's list is written back, grown by the rounds from the unassigned detections |
| AutoAssign.AssignAllAppend | src/state/autoAssign.ts:111-113 | the loop over two lists of objects is the loop over the first followed, from its result, by the loop over the second |
| AutoAssign.AssignAllTurn | src/state/autoAssign.ts:111-113 | an object named once ends with exactly its own `greedyAssign` result, run on the lists and claimed set that the objects before it left |
| AutoAssign.AutoAssignFirst | src/state/autoAssign.ts:104-116 | the first object named, if not named again, gets exactly its `greedyAssign` result against the state's lists with every used detection claimed |
| AutoAssign.AutoAssignObjects | src/state/autoAssign.ts:104-116 | objects not named keep their lists; named objects get a list that extends the old one by unclaimed detections within the length bound; lists that shared no detection still share none |
| Ids.MakeDetectionId | src/utils/ids.ts:1-3 | the id starts with the panorama id and a separator, and ends with the separator when there is no score |
| Ids.DetectionIdRoundTrip | src/utils/ids.ts:2 | reading an id back from the right gives the panorama id and the five printed fields, whatever the panorama id contains |
| Schema.FoundSet | src/data/schema.ts:13-14 | the found set is exactly the trimmed, lower-cased headers |
| Schema.TrimIsSlice | src/data/schema.ts:13 | trimming cuts whitespace off both ends and nothing else |
| Schema.Candidates | src/data/schema.ts:16 | a column's spellings are its own lower-cased name followed by each of its aliases lower-cased, in order, and nothing else |
| Schema.ValidateColumns | src/data/schema.ts:12-19 | the missing columns are a sublist of the expected ones, in order, and a column is missing exactly when none of its spellings was found |
| Schema.NothingExpected | src/data/schema.ts:15 | nothing expected means nothing missing |
| Schema.ValidateColumnsMonotone | src/data/schema.ts:12-19 | more found headers never add a missing column |
| Schema.LonAliases | src/data/schema.ts:2-10 | a `lng` or `longitude` header satisfies the metadata column `lon` |
| Schema.ImageWidthAlias | src/data/schema.ts:2-10 | an `image_width` header satisfies the metadata column `imageWidth` |
| ProjectIO.LoadBoxes | src/data/projectIO.ts:27-30 | one detection per row, in order, keeping the row's fields, with the id made from them |
| ProjectIO.LoadedIdsDecode | src/data/projectIO.ts:29 | a loaded detection's id gives back its row's panorama id and printed box |
| ProjectIO.LoadMetadata | src/data/projectIO.ts:35-48 | one panorama per row, in row order, with its longitude read from `lon` |
| ProjectIO.RowObservation | src/data/projectIO.ts:57-63 | an OBS row's observation has its ids, with missing ids defaulting to empty and a missing bearing to 0 |
| ProjectIO.RowObject | src/data/projectIO.ts:67-74 | an OBJ row's object has a missing colour defaulting to `#0ea5e9` and a missing count to 0 |
| ProjectIO.LoadProjectObservations | src/data/projectIO.ts:55-65 | every object's list is its OBS rows in row order, and only objects with such rows have a list |
| ProjectIO.LoadProjectObjects | src/data/projectIO.ts:66-76 | the objects are the OBJ rows written in order |
| ProjectIO.LastObjectRowWins | src/data/projectIO.ts:75 | an object's summary is the one of its last OBJ row |
| ProjectIO.OtherRowsIgnored | src/data/projectIO.ts:55-77 | a row that is neither OBS nor OBJ changes nothing |
| Colors.SlotColor | src/state/colors.ts:2-18 | every colour comes from the palette and is never the panorama marker blue |
| Colors.SlotColorsCycle | src/state/colors.ts:18 | two positions share a colour exactly when they are a multiple of ten apart |
| Colors.BuildColorMapKeys | src/state/colors.ts:15-20 | every listed id gets a colour and nothing else does |
| Colors.ColorOfLastPosition | src/state/colors.ts:17-18 | an id gets the colour of its last position |
| Colors.NeverMarkerBlue | src/state/colors.ts:1-13 | no id is mapped to `#0ea5e9` |
| Store.NextObjectId | src/state/store.tsx:122-123 | the new id is `obj-` followed by the decimal digits of the object count plus one |
| Store.DecimalValue | src/state/store.tsx:123 | the printed digits denote the number printed, with no leading zero |
| Store.NextObjectIdInjective | src/state/store.tsx:122-123 | two maps get the same new id exactly when they hold the same number of objects |
| Store.RecomputeObjectsKeys | src/state/store.tsx:76-81 | the recomputed objects are keyed by the existing object ids first, then the ids that only have observations, each once |
| Store.RecomputeObject | src/state/store.tsx:75-94 | an id gets a summary exactly when it has an object or a list; the summary counts the list, carries a solution only for two or more observations, and keeps an existing object's colour |
| Store.RecomputeNewColor | src/state/store.tsx:77-78 | a new id is coloured by its position, which comes after every existing object |
| Store.AddObservationSpec | src/state/store.tsx:140-152 | the observation is appended to its object's list; other lists are unchanged; objects are recomputed; the save is marked dirty |
| Store.RemoveObservationSpec | src/state/store.tsx:154-166 | that object's list loses exactly the observations of the detection and keeps the rest in order; other lists are unchanged |
| Store.ReassignObservationSpec | src/state/store.tsx:168-182 | for distinct objects the detection leaves the source list and the observation is appended to the target list; other lists are unchanged |
| Store.ReassignToSameObject | src/state/store.tsx:172-176 | reassigning to the same object leaves the old list plus the observation, so the removal is lost |
| Store.OpenPanoSpec | src/state/store.tsx:184-186 | an open panorama leaves the state as it is; any other is appended |
| Store.OpenPanoIdempotent | src/state/store.tsx:184-186 | opening the same panorama twice is the same as opening it once |
| Store.ClosePanoSpec | src/state/store.tsx:187-191 | every occurrence of the panorama is removed; the other open panoramas keep their order; nothing else changes |
| Store.OpenPanosStayDistinct | src/state/store.tsx:184-191 | opening and closing keep the open list free of duplicates |
| Store.AddObjectSpec | src/state/store.tsx:121-138 | the new id is active and its object is empty with the colour of the last slot; other objects are kept; the save is marked dirty |
| Store.AddObjectOrder | src/state/store.tsx:128-136 | a taken id keeps its place, and a fresh id is appended |
| Store.SetDataSpec | src/state/store.tsx:101-118 | the panorama and detection maps have exactly the given ids, in order of first appearance, with later duplicates winning; objects are recomputed from the project; the save is reset to idle |
| Store.SettersSpec | src/state/store.tsx:99-100 | each setter changes only its own field, and an unknown action changes nothing |
| Store.MergeSourcesSpec | src/state/store.tsx:100 | a key the payload has wins, even when its value is undefined; a key it lacks keeps its value |
| LegacyStore.FreshObjectColor | src/state/store.ts:73-83 | a fresh id is first in the list it is coloured by, so it gets palette slot 0 |
| LegacyStore.TakenObjectColor | src/state/store.ts:73-83 | an id taken by the j-th object gets palette slot j+1 |
| LegacyStore.AddObjectSpec | src/state/store.ts:72-89 | the new id is active and its object is empty; other objects are kept; the save state is not touched |
| LegacyStore.SetDataSpec | src/state/store.ts:58-69 | the panorama and detection maps have exactly the given ids, in order of first appearance, with later duplicates winning; observations and objects are taken verbatim from the project, or left empty |
| LegacyStore.OpenClosePanoSpec | src/state/store.ts:90-97 | opening is idempotent and appends only a closed panorama; closing removes every occurrence; the open list stays free of duplicates |
| LegacyStore.SettersSpec | src/state/store.ts:56-57 | `setSources` merges the payload over the sources, the other setters change only their own field, and an unknown action changes nothing |
| Types.OnPanoIsSubseq | src/state/selectors.ts:8 | the panorama filter keeps the detections it keeps in their original order |
| Types.OnPanoMembers | src/state/selectors.ts:8 | the panorama filter keeps exactly the detections on the panorama |
| Selectors.SelectPanosSpec | src/state/selectors.ts:3-5 | one panorama per key, the one stored under it, in key order |
| Selectors.SelectDetectionsForPanoSpec | src/state/selectors.ts:7-9 | every returned detection is on the panorama, every stored detection on it is returned, in the map's order, and no more than are stored |

## Left out

- `triangulate`'s least-squares solve: it uses floating point, trigonometry and a square root. It is the `solve` parameter. Only its guard and the shape of its result are modelled.
- `distanceMeters` (haversine): it uses trigonometry over floats. It is the `distance` parameter.
- `makeObservationId` and `nowIso`: they are random or time-dependent. They are the `Stamp` and `Env` inputs. One stamp serves every observation made in a run, so observation ids are not distinct in the model.
- A zero image width: JavaScript would compute NaN or an infinite bearing. The operations that build observations require every known panorama to have a non-zero width (`AssignCommon.WidthsNonZero`).
- Floating-point rounding: numbers are exact reals. `%` is modelled as JavaScript's truncating remainder.
- Integer-like record keys, which JavaScript lists first in ascending order: keys keep insertion order in the model.
- `String(n)` and `toLowerCase`: number printing is the `show` parameter. Lower-casing covers ASCII letters only.
- `resolveImageHandle`, the CSV parsing of `src/data/csv.ts`, and the asynchronous file reads of `src/data/projectIO.ts`: these are I/O. Rows are given already typed, and extra columns that the spread copies through are dropped.
- `saveProject`: it always throws.
- `StoreProvider`, `useStore`, the React components and `src/utils/debounce.ts`: these are rendering and timer plumbing.
- The `updated_at`, `obj_lat` and `obj_lng` fields that `recomputeObjects` writes: they are the `updatedAt`, `lat` and `lng` fields of the one object record.
- The extra observation fields that `makeObservationFromDetection` writes (box, `cx`, panorama position, `created_at`) are kept. The narrower `Observation` type of `src/types.ts` is not separately modelled.
- The `setData` payload of `src/state/store.ts`: its `project` field is declared as a map of objects (`ProjectObjectsState`), yet the reducer reads `project?.observationsByObjectId` and `project?.objectsById` from it, as if it were a loaded project. The model follows the reads: `project` is an optional loaded project, as in `src/state/store.tsx`.
- `maxObsPerObject` and `n_obs` are integers. The model does not give fractional or non-finite meanings to them.
- Schema.Trim: its own contract only says that no whitespace is left at either end. `Schema.TrimIsSlice` states that what is removed is whitespace and that the rest is a contiguous slice.
- AssignCommon.AngleDiffDeg: its own contract only states non-negativity for all reals. The half-turn bound and symmetry are proved for compass bearings in [0, 360) by `AssignCommon.AngleDiffIsCircularDistance`.
- PanoClusters.ClusterPanosCovers: it and `PanoClusters.GatherCovers` assume a symmetric distance, as haversine is. The distance is a parameter, so nothing else in the model relies on symmetry, and `PanoClusters.ClusterPanosSpec` holds without it.
