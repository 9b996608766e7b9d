/** The application state and its reducer, `src/state/store.tsx`. The
    reducer is a pure function of the state and an action; the two things it
    reads from outside, the triangulation solve and the clock (`nowIso`),
    are given as an environment. React context plumbing is not modelled. */
module Store {
  import opened Common
  import opened OrderedMap
  import opened Types
  import opened Triangulation
  import opened AssignCommon
  import Colors
  import ProjectIO

  /** The file handles the user picked, by name; handles themselves are I/O. */
  datatype Sources = Sources(
    imageDirectory: Option<string>,
    boxesHandle: Option<string>,
    metadataHandle: Option<string>,
    projectHandle: Option<string>,
    projectDelimiter: Option<string>)

  /** A `Partial<SourceState>` payload: `None` is a key the payload does not
      have, `Some(v)` a key it has (whose value may be `undefined`). */
  datatype SourcesPatch = SourcesPatch(
    imageDirectory: Option<Option<string>>,
    boxesHandle: Option<Option<string>>,
    metadataHandle: Option<Option<string>>,
    projectHandle: Option<Option<string>>,
    projectDelimiter: Option<Option<string>>)

  datatype Highlight = Highlight(panoId: string, detectionId: string)

  datatype Ui = Ui(openPanos: seq<string>, statusMessage: Option<string>, highlight: Option<Highlight>)

  datatype SaveStatus = Idle | Dirty | Saving | Saved | Failed

  datatype Save = Save(status: SaveStatus, lastSavedAt: Option<string>, error: Option<string>)

  /** A `Partial<SaveState>` payload, read like `SourcesPatch`. */
  datatype SavePatch = SavePatch(status: Option<SaveStatus>, lastSavedAt: Option<Option<string>>, error: Option<Option<string>>)

  datatype AppState = AppState(
    sources: Sources,
    panosById: OMap<string, Pano>,
    detectionsById: OMap<string, Detection>,
    observationsByObjectId: OMap<string, seq<Observation>>,
    objectsById: OMap<string, ProjectObject>,
    activeObjectId: Option<string>,
    ui: Ui,
    save: Save)

  /** `AppAction`; `Unknown` is any other action the reducer is sent. */
  datatype Action =
    | SetSources(sourcesPatch: SourcesPatch)
    | SetData(panos: seq<Pano>, detections: seq<Detection>, project: Option<ProjectIO.Project>)
    | SetActiveObject(objectId: Option<string>)
    | AddObject
    | AddObservation(observation: Observation)
    | RemoveObservation(removeFrom: string, removedDetection: string)
    | ReassignObservation(from: string, to: string, detectionId: string, moved: Observation)
    | OpenPano(openedPano: string)
    | ClosePano(closedPano: string)
    | SetHighlight(highlight: Option<Highlight>)
    | SetSaveState(savePatch: SavePatch)
    | SetStatus(message: Option<string>)
    | Unknown(kind: string)

  /** What the reducer reads from outside: the solve inside `triangulate`
      and the time `nowIso` returns during this action. */
  datatype Env = Env(solve: Solver, now: string)

  const InitialState: AppState :=
    AppState(Sources(None, None, None, None, None), [], [], [], [], None, Ui([], None, None), Save(Idle, None, None))

  // ---------------------------------------------------------------------
  // Helpers the cases share.
  // ---------------------------------------------------------------------

  /** `{ ...a, ...b }` for one field. */
  function Over<T>(a: Option<T>, b: Option<Option<T>>): Option<T> {
    match b
    case Some(v) => v
    case None => a
  }

  function MergeSources(s: Sources, p: SourcesPatch): Sources {
    Sources(Over(s.imageDirectory, p.imageDirectory), Over(s.boxesHandle, p.boxesHandle),
            Over(s.metadataHandle, p.metadataHandle), Over(s.projectHandle, p.projectHandle),
            Over(s.projectDelimiter, p.projectDelimiter))
  }

  function MergeSave(s: Save, p: SavePatch): Save {
    Save(p.status.GetOr(s.status), Over(s.lastSavedAt, p.lastSavedAt), Over(s.error, p.error))
  }

  /** `{ ...state.save, status: 'dirty', error: undefined }`. */
  function MarkDirty(s: Save): Save {
    Save(Dirty, s.lastSavedAt, None)
  }

  /** `list.filter((o) => o.detection_id !== detectionId)`. */
  function WithoutDetection(list: seq<Observation>, detectionId: string): (r: seq<Observation>)
    ensures IsSubseq(r, list)
    ensures forall o :: o in r <==> o in list && o.detectionId != detectionId
    decreases |list|
  {
    if |list| == 0 then []
    else
      var rest := WithoutDetection(list[1..], detectionId);
      assert forall o :: o in list <==> o == list[0] || o in list[1..];
      if list[0].detectionId != detectionId then
        assert ([list[0]] + rest)[1..] == rest;
        [list[0]] + rest
      else rest
  }

  /** `openPanos.filter((p) => p !== panoId)`. */
  function WithoutPano(panos: seq<string>, panoId: string): (r: seq<string>)
    ensures IsSubseq(r, panos)
    ensures forall p :: p in r <==> p in panos && p != panoId
    decreases |panos|
  {
    if |panos| == 0 then []
    else
      var rest := WithoutPano(panos[1..], panoId);
      assert forall p :: p in panos <==> p == panos[0] || p in panos[1..];
      if panos[0] != panoId then
        assert ([panos[0]] + rest)[1..] == rest;
        [panos[0]] + rest
      else rest
  }

  /** A subsequence of a list without duplicates has none either. */
  lemma {:induction false} SubseqKeepsNoDup<T>(a: seq<T>, b: seq<T>)
    requires IsSubseq(a, b) && NoDup(b)
    ensures NoDup(a)
    decreases |b|
  {
    if |a| > 0 {
      if a[0] == b[0] && IsSubseq(a[1..], b[1..]) {
        SubseqKeepsNoDup(a[1..], b[1..]);
        SubseqElements(a[1..], b[1..]);
        assert forall i :: 1 <= i < |a| ==> a[i] == a[1..][i - 1] && a[i] in b[1..];
        assert forall x :: x in b[1..] ==> x != b[0];
      } else {
        SubseqKeepsNoDup(a, b[1..]);
      }
    }
  }

  /** The decimal digits of `n`. */
  function Decimal(n: nat): (s: string)
    ensures |s| > 0 && forall i :: 0 <= i < |s| ==> '0' <= s[i] <= '9'
  {
    var d := ['0', '1', '2', '3', '4', '5', '6', '7', '8', '9'][n % 10];
    if n < 10 then [d] else Decimal(n / 10) + [d]
  }

  /** The number a string of decimal digits denotes, most significant first. */
  function DigitsValue(s: string): nat
    requires forall i :: 0 <= i < |s| ==> '0' <= s[i] <= '9'
  {
    if |s| == 0 then 0
    else 10 * DigitsValue(s[..|s| - 1]) + ((s[|s| - 1] as int) - ('0' as int))
  }

  /** `Decimal` prints the number it is given, without a leading zero. */
  lemma {:induction false} DecimalValue(n: nat)
    ensures DigitsValue(Decimal(n)) == n
    ensures n > 0 ==> Decimal(n)[0] != '0'
    decreases n
  {
    var s := Decimal(n);
    if n >= 10 {
      DecimalValue(n / 10);
      assert s[..|s| - 1] == Decimal(n / 10);
    }
  }

  /** Different object counts give different ids, so the counter alone
      decides the id. */
  lemma NextObjectIdInjective(a: OMap<string, ProjectObject>, b: OMap<string, ProjectObject>)
    ensures NextObjectId(a) == NextObjectId(b) <==> |a| == |b|
  {
    if NextObjectId(a) == NextObjectId(b) {
      assert NextObjectId(a)[4..] == NextObjectId(b)[4..];
      DecimalValue(|a| + 1);
      DecimalValue(|b| + 1);
    }
  }

  /** The id `addObject` gives the next object: `obj-${count + 1}`. */
  function NextObjectId(objectsById: OMap<string, ProjectObject>): (id: string)
    ensures IsPrefix("obj-", id) && |id| > 4 && id[4..] == Decimal(|objectsById| + 1)
  {
    "obj-" + Decimal(|objectsById| + 1)
  }

  // ---------------------------------------------------------------------
  // recomputeObjects
  // ---------------------------------------------------------------------

  /** The ids that have no object yet, in order. */
  function WithoutObject(ids: seq<string>, objectsById: OMap<string, ProjectObject>): (r: seq<string>)
    ensures forall x :: x in r <==> x in ids && Get(objectsById, x).None?
    decreases |ids|
  {
    if |ids| == 0 then []
    else
      var rest := WithoutObject(ids[..|ids| - 1], objectsById);
      assert forall x :: x in ids <==> x in ids[..|ids| - 1] || x == ids[|ids| - 1];
      if Get(objectsById, ids[|ids| - 1]).None? then rest + [ids[|ids| - 1]] else rest
  }

  /** The solution a list gets: only lists of two or more are solved. */
  function SolutionOf(solve: Solver, observations: seq<Observation>): (t: Option<TriangulationResult>)
    ensures t.Some? ==> |observations| >= 2
  {
    if |observations| >= 2 then Triangulate(solve, observations) else None
  }

  /** The summary `recomputeObjects` writes for one id. */
  function Summary(env: Env, objectsById: OMap<string, ProjectObject>, colors: OMap<string, string>,
                   lists: OMap<string, seq<Observation>>, objectId: string): (o: ProjectObject)
    ensures o.objectId == objectId && o.nObs == |ListOf(lists, objectId)| && o.updatedAt == Some(env.now)
    ensures o.lat.Some? || o.lng.Some? || o.rmsM.Some? ==> |ListOf(lists, objectId)| >= 2
    ensures Get(objectsById, objectId).Some? ==> o.color == Get(objectsById, objectId).value.color
    ensures Get(objectsById, objectId).None? ==> o.color == Get(colors, objectId).GetOr("")
    ensures var observations := ListOf(lists, objectId);
            |observations| >= 2 && env.solve(observations).Some? ==>
              o.lat == Some(env.solve(observations).value.lat) && o.lng == Some(env.solve(observations).value.lng)
              && o.rmsM == Some(env.solve(observations).value.rms)
  {
    var observations := ListOf(lists, objectId);
    var t := SolutionOf(env.solve, observations);
    var color := match Get(objectsById, objectId)
      case Some(existing) => existing.color
      case None => Get(colors, objectId).GetOr("");
    assert |observations| >= 2 && env.solve(observations).Some? ==> t.Some?;
    ProjectObject(objectId, color,
                  if t.Some? then Some(t.value.lat) else None,
                  if t.Some? then Some(t.value.lng) else None,
                  |observations|,
                  if t.Some? then Some(t.value.rms) else None,
                  Some(env.now))
  }

  /** `recomputeObjects`: one summary for every id that has an object or a
      list, existing objects first. New ids are coloured by their place
      after the existing ones. */
  function RecomputeObjects(env: Env, objectsById: OMap<string, ProjectObject>,
                            lists: OMap<string, seq<Observation>>): OMap<string, ProjectObject>
  {
    var ids := Dedup(Keys(objectsById) + Keys(lists));
    var colors := RecomputeColors(objectsById, lists);
    var r := seq(|ids|, i requires 0 <= i < |ids| => (ids[i], Summary(env, objectsById, colors, lists, ids[i])));
    assert Keys(r) == ids;
    r
  }

  /** The recomputed objects are keyed by the existing object ids, then the
      ids that only have observations, each once. */
  lemma RecomputeObjectsKeys(env: Env, objectsById: OMap<string, ProjectObject>, lists: OMap<string, seq<Observation>>)
    ensures Keys(RecomputeObjects(env, objectsById, lists)) == Dedup(Keys(objectsById) + Keys(lists))
  {
    var ids := Dedup(Keys(objectsById) + Keys(lists));
    assert Keys(RecomputeObjects(env, objectsById, lists)) == ids;
  }

  /** `orderedIds`: the existing objects' ids, then the other ids. */
  function OrderedIds(objectsById: OMap<string, ProjectObject>, lists: OMap<string, seq<Observation>>): seq<string> {
    Keys(objectsById) + WithoutObject(Dedup(Keys(objectsById) + Keys(lists)), objectsById)
  }

  /** Filtering out a prefix of ids that all have objects, from ids whose
      rest have none, leaves the rest. */
  lemma {:induction false} WithoutObjectOfSplit(ids: seq<string>, n: nat, objectsById: OMap<string, ProjectObject>)
    requires n <= |ids|
    requires forall i :: 0 <= i < n ==> Get(objectsById, ids[i]).Some?
    requires forall i :: n <= i < |ids| ==> Get(objectsById, ids[i]).None?
    ensures WithoutObject(ids, objectsById) == ids[n..]
    decreases |ids|
  {
    if |ids| > n {
      var init := ids[..|ids| - 1];
      WithoutObjectOfSplit(init, n, objectsById);
      assert init[n..] + [ids[|ids| - 1]] == ids[n..];
    } else if |ids| > 0 {
      WithoutObjectOfSplit(ids[..|ids| - 1], |ids| - 1, objectsById);
    }
  }

  /** `orderedIds` is the id set in its own order: existing ids first, then
      the others in first-seen order. */
  lemma OrderedIdsAreIds(objectsById: OMap<string, ProjectObject>, lists: OMap<string, seq<Observation>>)
    ensures OrderedIds(objectsById, lists) == Dedup(Keys(objectsById) + Keys(lists))
    ensures IsPrefix(Keys(objectsById), Dedup(Keys(objectsById) + Keys(lists)))
  {
    var ks := Keys(objectsById);
    var ids := Dedup(ks + Keys(lists));
    DedupAppend(ks, Keys(lists));
    forall i | 0 <= i < |ids|
      ensures i < |ks| <==> Get(objectsById, ids[i]).Some?
    {
      if i < |ks| {
        assert ids[i] == ks[i];
      } else {
        assert ids[i] in ids[|ks|..];
      }
    }
    WithoutObjectOfSplit(ids, |ks|, objectsById);
  }

  /** The colour map `recomputeObjects` uses. */
  function RecomputeColors(objectsById: OMap<string, ProjectObject>, lists: OMap<string, seq<Observation>>): OMap<string, string> {
    Colors.BuildColorMap(OrderedIds(objectsById, lists))
  }

  /** Where an id's summary sits in the result. */
  lemma RecomputeEntry(env: Env, objectsById: OMap<string, ProjectObject>, lists: OMap<string, seq<Observation>>,
                       objectId: string)
    ensures var r := RecomputeObjects(env, objectsById, lists);
            Get(r, objectId).Some? <==> Get(objectsById, objectId).Some? || Get(lists, objectId).Some?
    ensures var r := RecomputeObjects(env, objectsById, lists);
            Get(r, objectId).Some? ==>
              exists i :: 0 <= i < |r| && r[i].0 == objectId && Get(r, objectId) == Some(r[i].1)
                          && Dedup(Keys(objectsById) + Keys(lists))[i] == objectId
                          && r[i].1 == Summary(env, objectsById, RecomputeColors(objectsById, lists), lists, objectId)
  {
    var r := RecomputeObjects(env, objectsById, lists);
    var ids := Dedup(Keys(objectsById) + Keys(lists));
    var colors := RecomputeColors(objectsById, lists);
    RecomputeObjectsKeys(env, objectsById, lists);
    GetEntry(r, objectId);
    assert objectId in ids <==> objectId in Keys(objectsById) || objectId in Keys(lists);
    if Get(r, objectId).Some? {
      var i :| 0 <= i < |r| && r[i] == (objectId, Get(r, objectId).value);
      assert r[i] == (ids[i], Summary(env, objectsById, colors, lists, ids[i]));
    }
  }

  /** `recomputeObjects` per id: an id gets a summary exactly when it has an
      object or a list; the summary counts the list, carries the solution
      only for two or more observations, and keeps an existing object's
      colour. */
  lemma RecomputeObject(env: Env, objectsById: OMap<string, ProjectObject>, lists: OMap<string, seq<Observation>>,
                        objectId: string)
    ensures var r := RecomputeObjects(env, objectsById, lists);
            Get(r, objectId).Some? <==> Get(objectsById, objectId).Some? || Get(lists, objectId).Some?
    ensures var o := Get(RecomputeObjects(env, objectsById, lists), objectId);
            var observations := ListOf(lists, objectId);
            o.Some? ==>
              && o.value.objectId == objectId
              && o.value.nObs == |observations|
              && o.value.updatedAt == Some(env.now)
              && (o.value.lat.Some? || o.value.lng.Some? || o.value.rmsM.Some? ==> |observations| >= 2)
              && (|observations| >= 2 && env.solve(observations).Some? ==>
                    o.value.lat == Some(env.solve(observations).value.lat)
                    && o.value.lng == Some(env.solve(observations).value.lng)
                    && o.value.rmsM == Some(env.solve(observations).value.rms))
    ensures var o := Get(RecomputeObjects(env, objectsById, lists), objectId);
            Get(objectsById, objectId).Some? ==> o.Some? && o.value.color == Get(objectsById, objectId).value.color
  {
    RecomputeEntry(env, objectsById, lists, objectId);
  }

  /** A new id is coloured by its place in the result, which comes after
      every existing object. */
  lemma RecomputeNewColor(env: Env, objectsById: OMap<string, ProjectObject>, lists: OMap<string, seq<Observation>>,
                          objectId: string)
    requires Get(objectsById, objectId).None? && Get(lists, objectId).Some?
    ensures var r := RecomputeObjects(env, objectsById, lists);
            exists i :: |objectsById| <= i < |r| && r[i].0 == objectId
                        && Get(r, objectId) == Some(r[i].1) && r[i].1.color == Colors.SlotColor(i)
  {
    var r := RecomputeObjects(env, objectsById, lists);
    var ids := Dedup(Keys(objectsById) + Keys(lists));
    RecomputeEntry(env, objectsById, lists, objectId);
    var i :| 0 <= i < |r| && r[i].0 == objectId && Get(r, objectId) == Some(r[i].1)
             && ids[i] == objectId
             && r[i].1 == Summary(env, objectsById, RecomputeColors(objectsById, lists), lists, objectId);
    NewIdPlace(objectsById, lists, i);
    ColorAt(objectsById, lists, i);
  }

  /** The colour map gives each id the slot of its place. */
  lemma ColorAt(objectsById: OMap<string, ProjectObject>, lists: OMap<string, seq<Observation>>, i: nat)
    requires i < |Dedup(Keys(objectsById) + Keys(lists))|
    ensures var ids := Dedup(Keys(objectsById) + Keys(lists));
            Get(RecomputeColors(objectsById, lists), ids[i]) == Some(Colors.SlotColor(i))
  {
    OrderedIdsAreIds(objectsById, lists);
    Colors.ColorOfLastPosition(Dedup(Keys(objectsById) + Keys(lists)), i);
  }

  /** An id without an object comes after every existing object. */
  lemma NewIdPlace(objectsById: OMap<string, ProjectObject>, lists: OMap<string, seq<Observation>>, i: nat)
    requires i < |Dedup(Keys(objectsById) + Keys(lists))|
    requires Get(objectsById, Dedup(Keys(objectsById) + Keys(lists))[i]).None?
    ensures i >= |objectsById|
  {
    OrderedIdsAreIds(objectsById, lists);
    NewIdAfterExisting(objectsById, Dedup(Keys(objectsById) + Keys(lists)), i);
  }

  lemma NewIdAfterExisting(objectsById: OMap<string, ProjectObject>, ids: seq<string>, i: nat)
    requires IsPrefix(Keys(objectsById), ids) && i < |ids| && Get(objectsById, ids[i]).None?
    ensures i >= |objectsById|
  {
  }

  // ---------------------------------------------------------------------
  // The reducer.
  // ---------------------------------------------------------------------

  /** `Object.fromEntries(panos.map((p) => [p.pano_id, p]))`. */
  function PanosById(panos: seq<Pano>): OMap<string, Pano> {
    FromEntries(seq(|panos|, i requires 0 <= i < |panos| => (panos[i].panoId, panos[i])))
  }

  /** `Object.fromEntries(detections.map((d) => [d.detection_id, d]))`. */
  function DetectionsById(detections: seq<Detection>): OMap<string, Detection> {
    FromEntries(seq(|detections|, i requires 0 <= i < |detections| => (detections[i].detectionId, detections[i])))
  }

  /** The entry `addObject` writes for a new id. */
  function NewObject(objectsById: OMap<string, ProjectObject>, id: string): ProjectObject {
    ProjectObject(id, Get(Colors.BuildColorMap(Keys(objectsById) + [id]), id).GetOr(""), None, None, 0, None, None)
  }

  /** The state with a new observation map and the summaries recomputed
      from it, marked unsaved: the common tail of the three observation
      cases. */
  function WithLists(env: Env, state: AppState, lists: OMap<string, seq<Observation>>): (r: AppState)
    ensures r.observationsByObjectId == lists
    ensures r.objectsById == RecomputeObjects(env, state.objectsById, lists)
    ensures r.save == Save(Dirty, state.save.lastSavedAt, None)
    ensures KeepsSetting(r, state)
  {
    state.(observationsByObjectId := lists,
           objectsById := RecomputeObjects(env, state.objectsById, lists),
           save := MarkDirty(state.save))
  }

  /** `reducer`. */
  function Reduce(env: Env, state: AppState, action: Action): AppState {
    match action
    case SetSources(patch) => state.(sources := MergeSources(state.sources, patch))
    case SetData(panos, detections, project) =>
      var lists := if project.Some? then project.value.observationsByObjectId else [];
      var objects := if project.Some? then project.value.objectsById else [];
      state.(panosById := PanosById(panos),
             detectionsById := DetectionsById(detections),
             observationsByObjectId := lists,
             objectsById := RecomputeObjects(env, objects, lists),
             save := Save(Idle, None, None))
    case SetActiveObject(id) => state.(activeObjectId := id)
    case AddObject =>
      var id := NextObjectId(state.objectsById);
      state.(activeObjectId := Some(id),
             objectsById := Put(state.objectsById, id, NewObject(state.objectsById, id)),
             save := MarkDirty(state.save))
    case AddObservation(obs) =>
      var lists := state.observationsByObjectId;
      WithLists(env, state, Put(lists, obs.objectId, ListOf(lists, obs.objectId) + [obs]))
    case RemoveObservation(objectId, detectionId) =>
      var lists := state.observationsByObjectId;
      WithLists(env, state, Put(lists, objectId, WithoutDetection(ListOf(lists, objectId), detectionId)))
    case ReassignObservation(from, to, detectionId, obs) =>
      var lists := state.observationsByObjectId;
      var fromList := WithoutDetection(ListOf(lists, from), detectionId);
      var toList := ListOf(lists, to) + [obs];
      WithLists(env, state, Put(Put(lists, from, fromList), to, toList))
    case OpenPano(panoId) =>
      if panoId in state.ui.openPanos then state
      else state.(ui := state.ui.(openPanos := state.ui.openPanos + [panoId]))
    case ClosePano(panoId) => state.(ui := state.ui.(openPanos := WithoutPano(state.ui.openPanos, panoId)))
    case SetHighlight(h) => state.(ui := state.ui.(highlight := h))
    case SetSaveState(patch) => state.(save := MergeSave(state.save, patch))
    case SetStatus(message) => state.(ui := state.ui.(statusMessage := message))
    case Unknown(_) => state
  }

  // ---------------------------------------------------------------------
  // What each case does.
  // ---------------------------------------------------------------------

  /** `a` keeps `b`'s sources, loaded panoramas and detections, active
      object and UI: what the observation cases leave alone. */
  predicate KeepsSetting(a: AppState, b: AppState) {
    && a.sources == b.sources && a.panosById == b.panosById && a.detectionsById == b.detectionsById
    && a.activeObjectId == b.activeObjectId && a.ui == b.ui
  }

  /** Writing one key of a map leaves every other key alone. */
  lemma PutLeavesOthers<V>(m: OMap<string, V>, key: string, v: V)
    ensures Get(Put(m, key, v), key) == Some(v)
    ensures forall k :: k != key ==> Get(Put(m, key, v), k) == Get(m, k)
  {
    GetPutSame(m, key, v);
    forall k | k != key
      ensures Get(Put(m, key, v), k) == Get(m, k)
    {
      GetPutOther(m, key, v, k);
    }
  }

  /** Two writes to different keys: each key holds its own write. */
  lemma PutTwo<V>(m: OMap<string, V>, k1: string, v1: V, k2: string, v2: V)
    requires k1 != k2
    ensures var r := Put(Put(m, k1, v1), k2, v2);
            && Get(r, k1) == Some(v1) && Get(r, k2) == Some(v2)
            && forall k :: k != k1 && k != k2 ==> Get(r, k) == Get(m, k)
  {
    PutLeavesOthers(m, k1, v1);
    PutLeavesOthers(Put(m, k1, v1), k2, v2);
  }

  /** `addObservation`: the observation goes to the end of its object's
      list; no other list changes; the summaries are recomputed; the save
      state becomes dirty with no error; nothing else changes. */
  lemma AddObservationSpec(env: Env, state: AppState, obs: Observation)
    ensures var r := Reduce(env, state, AddObservation(obs));
            Get(r.observationsByObjectId, obs.objectId) == Some(ListOf(state.observationsByObjectId, obs.objectId) + [obs])
    ensures var r := Reduce(env, state, AddObservation(obs));
            forall k :: k != obs.objectId ==> Get(r.observationsByObjectId, k) == Get(state.observationsByObjectId, k)
    ensures var r := Reduce(env, state, AddObservation(obs));
            r.objectsById == RecomputeObjects(env, state.objectsById, r.observationsByObjectId)
    ensures var r := Reduce(env, state, AddObservation(obs));
            r.save == Save(Dirty, state.save.lastSavedAt, None)
    ensures var r := Reduce(env, state, AddObservation(obs));
            KeepsSetting(r, state)
  {
    var lists := state.observationsByObjectId;
    var lists' := Put(lists, obs.objectId, ListOf(lists, obs.objectId) + [obs]);
    assert Reduce(env, state, AddObservation(obs)) == WithLists(env, state, lists');
    PutLeavesOthers(lists, obs.objectId, ListOf(lists, obs.objectId) + [obs]);
  }

  /** `removeObservation`: the object's list loses every observation of the
      detection and keeps the rest in order (the key is written even when
      the object had no list); no other list changes. */
  lemma RemoveObservationSpec(env: Env, state: AppState, objectId: string, detectionId: string)
    ensures var r := Reduce(env, state, RemoveObservation(objectId, detectionId));
            var before := ListOf(state.observationsByObjectId, objectId);
            && Get(r.observationsByObjectId, objectId).Some?
            && var after := ListOf(r.observationsByObjectId, objectId);
               && IsSubseq(after, before)
               && forall o :: o in after <==> o in before && o.detectionId != detectionId
    ensures var r := Reduce(env, state, RemoveObservation(objectId, detectionId));
            forall k :: k != objectId ==> Get(r.observationsByObjectId, k) == Get(state.observationsByObjectId, k)
    ensures var r := Reduce(env, state, RemoveObservation(objectId, detectionId));
            r.objectsById == RecomputeObjects(env, state.objectsById, r.observationsByObjectId)
            && r.save == Save(Dirty, state.save.lastSavedAt, None)
    ensures var r := Reduce(env, state, RemoveObservation(objectId, detectionId));
            KeepsSetting(r, state)
  {
    var lists := state.observationsByObjectId;
    assert Reduce(env, state, RemoveObservation(objectId, detectionId))
           == WithLists(env, state, Put(lists, objectId, WithoutDetection(ListOf(lists, objectId), detectionId)));
    PutLeavesOthers(lists, objectId, WithoutDetection(ListOf(lists, objectId), detectionId));
  }

  /** `reassignObservation` between two objects: the detection leaves the
      first object's list and the observation is appended to the second's;
      no other list changes. */
  lemma ReassignObservationSpec(env: Env, state: AppState, from: string, to: string, detectionId: string, obs: Observation)
    requires from != to
    ensures var r := Reduce(env, state, ReassignObservation(from, to, detectionId, obs));
            var before := ListOf(state.observationsByObjectId, from);
            && Get(r.observationsByObjectId, from).Some?
            && var after := ListOf(r.observationsByObjectId, from);
               && IsSubseq(after, before)
               && forall o :: o in after <==> o in before && o.detectionId != detectionId
    ensures var r := Reduce(env, state, ReassignObservation(from, to, detectionId, obs));
            Get(r.observationsByObjectId, to) == Some(ListOf(state.observationsByObjectId, to) + [obs])
    ensures var r := Reduce(env, state, ReassignObservation(from, to, detectionId, obs));
            forall k :: k != from && k != to ==> Get(r.observationsByObjectId, k) == Get(state.observationsByObjectId, k)
    ensures var r := Reduce(env, state, ReassignObservation(from, to, detectionId, obs));
            r.objectsById == RecomputeObjects(env, state.objectsById, r.observationsByObjectId)
            && r.save == Save(Dirty, state.save.lastSavedAt, None)
  {
    var lists := state.observationsByObjectId;
    var fromList := WithoutDetection(ListOf(lists, from), detectionId);
    assert Reduce(env, state, ReassignObservation(from, to, detectionId, obs))
           == WithLists(env, state, Put(Put(lists, from, fromList), to, ListOf(lists, to) + [obs]));
    PutTwo(lists, from, fromList, to, ListOf(lists, to) + [obs]);
  }

  /** `reassignObservation` from an object to itself: the `[to]` write comes
      last and was computed from the old list, so the removal is lost and
      the observation is simply appended. */
  lemma ReassignToSameObject(env: Env, state: AppState, objectId: string, detectionId: string, obs: Observation)
    ensures var r := Reduce(env, state, ReassignObservation(objectId, objectId, detectionId, obs));
            Get(r.observationsByObjectId, objectId) == Some(ListOf(state.observationsByObjectId, objectId) + [obs])
  {
    var lists := state.observationsByObjectId;
    var fromList := WithoutDetection(ListOf(lists, objectId), detectionId);
    var lists' := Put(Put(lists, objectId, fromList), objectId, ListOf(lists, objectId) + [obs]);
    assert Reduce(env, state, ReassignObservation(objectId, objectId, detectionId, obs)).observationsByObjectId == lists';
    GetPutSame(Put(lists, objectId, fromList), objectId, ListOf(lists, objectId) + [obs]);
  }

  /** `openPano`: an open pano leaves the state as it is; any other is
      appended to the open list, and nothing else changes. */
  lemma OpenPanoSpec(env: Env, state: AppState, panoId: string)
    ensures panoId in state.ui.openPanos ==> Reduce(env, state, OpenPano(panoId)) == state
    ensures panoId !in state.ui.openPanos ==>
              Reduce(env, state, OpenPano(panoId)) == state.(ui := state.ui.(openPanos := state.ui.openPanos + [panoId]))
    ensures panoId in Reduce(env, state, OpenPano(panoId)).ui.openPanos
  {
  }

  /** Opening a pano twice is opening it once. */
  lemma OpenPanoIdempotent(env: Env, state: AppState, panoId: string)
    ensures var once := Reduce(env, state, OpenPano(panoId));
            Reduce(env, once, OpenPano(panoId)) == once
  {
    OpenPanoSpec(env, state, panoId);
  }

  /** `closePano`: every occurrence of the pano goes, the other open panos
      stay in order, and nothing else changes. */
  lemma ClosePanoSpec(env: Env, state: AppState, panoId: string)
    ensures var r := Reduce(env, state, ClosePano(panoId));
            && panoId !in r.ui.openPanos
            && IsSubseq(r.ui.openPanos, state.ui.openPanos)
            && (forall p :: p != panoId ==> (p in r.ui.openPanos <==> p in state.ui.openPanos))
            && r.sources == state.sources && r.panosById == state.panosById && r.detectionsById == state.detectionsById
            && r.observationsByObjectId == state.observationsByObjectId && r.objectsById == state.objectsById
            && r.activeObjectId == state.activeObjectId && r.save == state.save
            && r.ui.statusMessage == state.ui.statusMessage && r.ui.highlight == state.ui.highlight
  {
  }

  /** The open list never holds a pano twice, whatever is opened or closed. */
  lemma OpenPanosStayDistinct(env: Env, state: AppState, action: Action)
    requires NoDup(state.ui.openPanos)
    requires action.OpenPano? || action.ClosePano?
    ensures NoDup(Reduce(env, state, action).ui.openPanos)
  {
    if action.ClosePano? {
      SubseqKeepsNoDup(WithoutPano(state.ui.openPanos, action.closedPano), state.ui.openPanos);
    }
  }

  /** `addObject`: the id is `obj-` and one more than the number of
      objects; the new object is active, empty, and coloured by the slot
      after the existing objects; an existing entry with that id is
      overwritten in place; every other object is kept. */
  lemma AddObjectSpec(env: Env, state: AppState)
    ensures var r := Reduce(env, state, AddObject);
            var id := NextObjectId(state.objectsById);
            && r.activeObjectId == Some(id)
            && Get(r.objectsById, id) == Some(ProjectObject(id, Colors.SlotColor(|state.objectsById|), None, None, 0, None, None))
            && (forall k :: k != id ==> Get(r.objectsById, k) == Get(state.objectsById, k))
            && r.save == Save(Dirty, state.save.lastSavedAt, None)
            && r.sources == state.sources && r.panosById == state.panosById && r.detectionsById == state.detectionsById
            && r.observationsByObjectId == state.observationsByObjectId && r.ui == state.ui
  {
    var objs := state.objectsById;
    var id := NextObjectId(objs);
    var objs' := Put(objs, id, NewObject(objs, id));
    assert Reduce(env, state, AddObject).objectsById == objs';
    NewObjectColor(objs, id);
    PutLeavesOthers(objs, id, NewObject(objs, id));
  }

  /** `addObject` keeps the order of the objects: a fresh id goes last, a
      taken one keeps its place. */
  lemma AddObjectOrder(env: Env, state: AppState)
    ensures var r := Reduce(env, state, AddObject);
            var id := NextObjectId(state.objectsById);
            && (id in Keys(state.objectsById) ==> Keys(r.objectsById) == Keys(state.objectsById))
            && (id !in Keys(state.objectsById) ==> Keys(r.objectsById) == Keys(state.objectsById) + [id])
  {
    var objs := state.objectsById;
    var id := NextObjectId(objs);
    if id !in Keys(objs) {
      assert Keys(Put(objs, id, NewObject(objs, id))) == Keys(objs) + [id];
    }
  }

  /** The new object takes the colour of the slot after the existing
      objects, whether or not its id is already taken. */
  lemma NewObjectColor(objs: OMap<string, ProjectObject>, id: string)
    ensures NewObject(objs, id) == ProjectObject(id, Colors.SlotColor(|objs|), None, None, 0, None, None)
  {
    var ks := Keys(objs) + [id];
    Colors.ColorOfLastPosition(ks, |objs|);
    assert ks[|objs|] == id;
  }

  /** `setData`: panoramas and detections are keyed by id with later
      duplicates winning; the project's lists are taken as they are (none
      without a project); the summaries are recomputed from the project's
      objects alone; the save state is reset to idle; sources, the active
      object and the UI are kept. */
  lemma SetDataSpec(env: Env, state: AppState, panos: seq<Pano>, detections: seq<Detection>,
                    project: Option<ProjectIO.Project>)
    ensures var r := Reduce(env, state, SetData(panos, detections, project));
            forall i :: 0 <= i < |panos| && (forall j :: i < j < |panos| ==> panos[j].panoId != panos[i].panoId) ==>
              Get(r.panosById, panos[i].panoId) == Some(panos[i])
    ensures var r := Reduce(env, state, SetData(panos, detections, project));
            forall i :: 0 <= i < |detections|
                        && (forall j :: i < j < |detections| ==> detections[j].detectionId != detections[i].detectionId) ==>
              Get(r.detectionsById, detections[i].detectionId) == Some(detections[i])
    ensures var r := Reduce(env, state, SetData(panos, detections, project));
            var lists := if project.Some? then project.value.observationsByObjectId else [];
            && r.observationsByObjectId == lists
            && r.objectsById == RecomputeObjects(env, if project.Some? then project.value.objectsById else [], lists)
            && r.save == Save(Idle, None, None)
            && r.sources == state.sources && r.activeObjectId == state.activeObjectId && r.ui == state.ui
    ensures var r := Reduce(env, state, SetData(panos, detections, project));
            && Keys(r.panosById) == Dedup(seq(|panos|, i requires 0 <= i < |panos| => panos[i].panoId))
            && Keys(r.detectionsById) == Dedup(DetectionIdsOfDetections(detections))
  {
    SetDataKeys(panos, detections);
  }

  /** `Object.fromEntries` over panoramas and detections: an item whose id
      does not come again later is the one stored under that id. */
  lemma SetDataKeys(panos: seq<Pano>, detections: seq<Detection>)
    ensures forall i :: 0 <= i < |panos| && (forall j :: i < j < |panos| ==> panos[j].panoId != panos[i].panoId) ==>
              Get(PanosById(panos), panos[i].panoId) == Some(panos[i])
    ensures forall i :: 0 <= i < |detections|
                        && (forall j :: i < j < |detections| ==> detections[j].detectionId != detections[i].detectionId) ==>
              Get(DetectionsById(detections), detections[i].detectionId) == Some(detections[i])
    ensures Keys(PanosById(panos)) == Dedup(seq(|panos|, i requires 0 <= i < |panos| => panos[i].panoId))
    ensures Keys(DetectionsById(detections)) == Dedup(DetectionIdsOfDetections(detections))
  {
    var pe := seq(|panos|, i requires 0 <= i < |panos| => (panos[i].panoId, panos[i]));
    var de := seq(|detections|, i requires 0 <= i < |detections| => (detections[i].detectionId, detections[i]));
    FromEntriesSpec(pe);
    FromEntriesSpec(de);
    assert EntryKeys(pe) == seq(|panos|, i requires 0 <= i < |panos| => panos[i].panoId);
    assert EntryKeys(de) == DetectionIdsOfDetections(detections);
    forall i | 0 <= i < |panos| && (forall j :: i < j < |panos| ==> panos[j].panoId != panos[i].panoId)
      ensures Get(PanosById(panos), panos[i].panoId) == Some(panos[i])
    {
      LastValueAt(pe, i);
    }
    forall i | 0 <= i < |detections| && (forall j :: i < j < |detections| ==> detections[j].detectionId != detections[i].detectionId)
      ensures Get(DetectionsById(detections), detections[i].detectionId) == Some(detections[i])
    {
      LastValueAt(de, i);
    }
  }

  /** The field setters change their own field and nothing else; an action
      the reducer does not know leaves the state as it is. */
  lemma SettersSpec(env: Env, state: AppState, action: Action)
    ensures action.SetSources? ==>
              Reduce(env, state, action) == state.(sources := MergeSources(state.sources, action.sourcesPatch))
    ensures action.SetActiveObject? ==> Reduce(env, state, action) == state.(activeObjectId := action.objectId)
    ensures action.SetHighlight? ==> Reduce(env, state, action) == state.(ui := state.ui.(highlight := action.highlight))
    ensures action.SetSaveState? ==> Reduce(env, state, action) == state.(save := MergeSave(state.save, action.savePatch))
    ensures action.SetStatus? ==> Reduce(env, state, action) == state.(ui := state.ui.(statusMessage := action.message))
    ensures action.Unknown? ==> Reduce(env, state, action) == state
  {
  }

  /** `{ ...state.sources, ...payload }`: a key the payload has wins, even
      with the value `undefined`; a key it lacks keeps its value. */
  lemma MergeSourcesSpec(s: Sources, p: SourcesPatch)
    ensures var m := MergeSources(s, p);
            && (p.imageDirectory.Some? ==> m.imageDirectory == p.imageDirectory.value)
            && (p.imageDirectory.None? ==> m.imageDirectory == s.imageDirectory)
            && (p.boxesHandle.Some? ==> m.boxesHandle == p.boxesHandle.value)
            && (p.boxesHandle.None? ==> m.boxesHandle == s.boxesHandle)
            && (p.metadataHandle.Some? ==> m.metadataHandle == p.metadataHandle.value)
            && (p.metadataHandle.None? ==> m.metadataHandle == s.metadataHandle)
            && (p.projectHandle.Some? ==> m.projectHandle == p.projectHandle.value)
            && (p.projectHandle.None? ==> m.projectHandle == s.projectHandle)
            && (p.projectDelimiter.Some? ==> m.projectDelimiter == p.projectDelimiter.value)
            && (p.projectDelimiter.None? ==> m.projectDelimiter == s.projectDelimiter)
  {
  }
}
