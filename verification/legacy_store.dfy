/** The older state and reducer, `src/state/store.ts`: the same maps as the
    newer store, but no observation actions, no recomputed summaries, no
    highlight and a plainer save state. Its new objects are coloured by a
    different list than the newer store's. */
module LegacyStore {
  import opened Common
  import opened OrderedMap
  import opened Types
  import Colors
  import ProjectIO
  import Store

  /** The file handles the user picked, by name; no delimiter here. */
  datatype Sources = Sources(
    imageDirectory: Option<string>,
    boxesHandle: Option<string>,
    metadataHandle: Option<string>,
    projectHandle: Option<string>)

  /** A `Partial<SourceState>` payload: `None` is a key the payload does not
      have, `Some(v)` a key it has (whose value may be `undefined`). */
  datatype SourcesPatch = SourcesPatch(
    imageDirectory: Option<Option<string>>,
    boxesHandle: Option<Option<string>>,
    metadataHandle: Option<Option<string>>,
    projectHandle: Option<Option<string>>)

  datatype Ui = Ui(openPanos: seq<string>, statusMessage: Option<string>)

  datatype SaveStatus = Idle | Dirty | Saving | Error

  datatype Save = Save(status: SaveStatus, lastSavedAt: Option<string>)

  datatype AppState = AppState(
    sources: Sources,
    panosById: OMap<string, Pano>,
    detectionsById: OMap<string, Detection>,
    observationsByObjectId: OMap<string, seq<Observation>>,
    objectsById: OMap<string, ProjectObject>,
    activeObjectId: Option<string>,
    ui: Ui,
    save: Save)

  /** `AppAction`; `Unknown` is any other action the reducer is sent. */
  datatype Action =
    | SetSources(sourcesPatch: SourcesPatch)
    | SetData(panos: seq<Pano>, detections: seq<Detection>, project: Option<ProjectIO.Project>)
    | SetActiveObject(objectId: Option<string>)
    | AddObject
    | OpenPano(openedPano: string)
    | ClosePano(closedPano: string)
    | SetStatus(message: Option<string>)
    | Unknown(kind: string)

  const InitialState: AppState :=
    AppState(Sources(None, None, None, None), [], [], [], [], None, Ui([], None), Save(Idle, None))

  function MergeSources(s: Sources, p: SourcesPatch): Sources {
    Sources(Store.Over(s.imageDirectory, p.imageDirectory), Store.Over(s.boxesHandle, p.boxesHandle),
            Store.Over(s.metadataHandle, p.metadataHandle), Store.Over(s.projectHandle, p.projectHandle))
  }

  /** The entry `addObject` writes: coloured by `buildColorMap([id, ...keys])`,
      so the new id is placed before the existing ones. */
  function NewObject(objectsById: OMap<string, ProjectObject>, id: string): ProjectObject {
    ProjectObject(id, Get(Colors.BuildColorMap([id] + Keys(objectsById)), id).GetOr(""), None, None, 0, None, None)
  }

  /** `reducer`. */
  function Reduce(state: AppState, action: Action): AppState {
    match action
    case SetSources(patch) => state.(sources := MergeSources(state.sources, patch))
    case SetData(panos, detections, project) =>
      state.(panosById := Store.PanosById(panos),
             detectionsById := Store.DetectionsById(detections),
             observationsByObjectId := if project.Some? then project.value.observationsByObjectId else [],
             objectsById := if project.Some? then project.value.objectsById else [])
    case SetActiveObject(id) => state.(activeObjectId := id)
    case AddObject =>
      var id := Store.NextObjectId(state.objectsById);
      state.(activeObjectId := Some(id),
             objectsById := Put(state.objectsById, id, NewObject(state.objectsById, id)))
    case OpenPano(panoId) =>
      if panoId in state.ui.openPanos then state
      else state.(ui := state.ui.(openPanos := state.ui.openPanos + [panoId]))
    case ClosePano(panoId) => state.(ui := state.ui.(openPanos := Store.WithoutPano(state.ui.openPanos, panoId)))
    case SetStatus(message) => state.(ui := state.ui.(statusMessage := message))
    case Unknown(_) => state
  }

  /** A fresh id is first in the list it is coloured by, so it gets slot 0. */
  lemma FreshObjectColor(objs: OMap<string, ProjectObject>, id: string)
    requires id !in Keys(objs)
    ensures NewObject(objs, id).color == Colors.SlotColor(0)
  {
    Colors.ColorOfLastPosition([id] + Keys(objs), 0);
  }

  /** An id already taken by the `j`-th object is written again at position
      `j + 1` of the list it is coloured by, and that later write wins. */
  lemma TakenObjectColor(objs: OMap<string, ProjectObject>, id: string, j: nat)
    requires j < |objs| && Keys(objs)[j] == id
    ensures NewObject(objs, id).color == Colors.SlotColor(j + 1)
  {
    var ks := [id] + Keys(objs);
    assert forall k :: j + 1 < k < |ks| ==> ks[k] == Keys(objs)[k - 1];
    Colors.ColorOfLastPosition(ks, j + 1);
  }

  /** `addObject`: the id is the one the newer store would pick, the new
      object is active and empty; every other object is kept, and, unlike
      the newer store, the save state is not touched. */
  lemma AddObjectSpec(state: AppState)
    ensures var r := Reduce(state, AddObject);
            var id := Store.NextObjectId(state.objectsById);
            && r.activeObjectId == Some(id)
            && Get(r.objectsById, id) == Some(NewObject(state.objectsById, id))
            && NewObject(state.objectsById, id).nObs == 0 && NewObject(state.objectsById, id).lat.None?
            && (id !in Keys(state.objectsById) ==> Get(r.objectsById, id).value.color == Colors.SlotColor(0))
            && (forall k :: k != id ==> Get(r.objectsById, k) == Get(state.objectsById, k))
            && r.sources == state.sources && r.panosById == state.panosById && r.detectionsById == state.detectionsById
            && r.observationsByObjectId == state.observationsByObjectId && r.ui == state.ui && r.save == state.save
  {
    var objs := state.objectsById;
    var id := Store.NextObjectId(objs);
    assert Reduce(state, AddObject).objectsById == Put(objs, id, NewObject(objs, id));
    if id !in Keys(objs) {
      FreshObjectColor(objs, id);
    }
    Store.PutLeavesOthers(objs, id, NewObject(objs, id));
  }

  /** `setData`: panoramas and detections keyed by id, later duplicates
      winning; observations and objects taken verbatim from the project, or
      empty; nothing recomputed and everything else kept. */
  lemma SetDataSpec(state: AppState, panos: seq<Pano>, detections: seq<Detection>, project: Option<ProjectIO.Project>)
    ensures var r := Reduce(state, SetData(panos, detections, project));
            forall i :: 0 <= i < |panos| && (forall j :: i < j < |panos| ==> panos[j].panoId != panos[i].panoId) ==>
              Get(r.panosById, panos[i].panoId) == Some(panos[i])
    ensures var r := Reduce(state, SetData(panos, detections, project));
            forall i :: 0 <= i < |detections|
                        && (forall j :: i < j < |detections| ==> detections[j].detectionId != detections[i].detectionId) ==>
              Get(r.detectionsById, detections[i].detectionId) == Some(detections[i])
    ensures var r := Reduce(state, SetData(panos, detections, project));
            && (project.Some? ==> r.observationsByObjectId == project.value.observationsByObjectId
                                  && r.objectsById == project.value.objectsById)
            && (project.None? ==> r.observationsByObjectId == [] && r.objectsById == [])
            && r.sources == state.sources && r.activeObjectId == state.activeObjectId
            && r.ui == state.ui && r.save == state.save
    ensures var r := Reduce(state, SetData(panos, detections, project));
            && Keys(r.panosById) == Dedup(seq(|panos|, i requires 0 <= i < |panos| => panos[i].panoId))
            && Keys(r.detectionsById) == Dedup(DetectionIdsOfDetections(detections))
  {
    Store.SetDataKeys(panos, detections);
  }

  /** `openPano` leaves an open pano's state as it is and appends any other;
      `closePano` removes every occurrence and keeps the rest in order; the
      open list never gains a duplicate. */
  lemma OpenClosePanoSpec(state: AppState, panoId: string)
    ensures panoId in state.ui.openPanos ==> Reduce(state, OpenPano(panoId)) == state
    ensures panoId !in state.ui.openPanos ==>
              Reduce(state, OpenPano(panoId)) == state.(ui := state.ui.(openPanos := state.ui.openPanos + [panoId]))
    ensures var once := Reduce(state, OpenPano(panoId));
            Reduce(once, OpenPano(panoId)) == once
    ensures var r := Reduce(state, ClosePano(panoId));
            && panoId !in r.ui.openPanos
            && IsSubseq(r.ui.openPanos, state.ui.openPanos)
            && (forall p :: p != panoId ==> (p in r.ui.openPanos <==> p in state.ui.openPanos))
            && r.sources == state.sources && r.panosById == state.panosById && r.detectionsById == state.detectionsById
            && r.observationsByObjectId == state.observationsByObjectId && r.objectsById == state.objectsById
            && r.activeObjectId == state.activeObjectId && r.save == state.save
            && r.ui.statusMessage == state.ui.statusMessage
    ensures NoDup(state.ui.openPanos) ==>
              NoDup(Reduce(state, OpenPano(panoId)).ui.openPanos) && NoDup(Reduce(state, ClosePano(panoId)).ui.openPanos)
  {
    if NoDup(state.ui.openPanos) {
      Store.SubseqKeepsNoDup(Store.WithoutPano(state.ui.openPanos, panoId), state.ui.openPanos);
    }
  }

  /** The setters change their own field and nothing else; an action the
      reducer does not know leaves the state as it is. */
  lemma SettersSpec(state: AppState, action: Action)
    ensures action.SetSources? ==>
              var r := Reduce(state, action);
              var p := action.sourcesPatch;
              && r == state.(sources := r.sources)
              && (p.imageDirectory.Some? ==> r.sources.imageDirectory == p.imageDirectory.value)
              && (p.imageDirectory.None? ==> r.sources.imageDirectory == state.sources.imageDirectory)
              && (p.boxesHandle.Some? ==> r.sources.boxesHandle == p.boxesHandle.value)
              && (p.boxesHandle.None? ==> r.sources.boxesHandle == state.sources.boxesHandle)
              && (p.metadataHandle.Some? ==> r.sources.metadataHandle == p.metadataHandle.value)
              && (p.metadataHandle.None? ==> r.sources.metadataHandle == state.sources.metadataHandle)
              && (p.projectHandle.Some? ==> r.sources.projectHandle == p.projectHandle.value)
              && (p.projectHandle.None? ==> r.sources.projectHandle == state.sources.projectHandle)
    ensures action.SetActiveObject? ==> Reduce(state, action) == state.(activeObjectId := action.objectId)
    ensures action.SetStatus? ==> Reduce(state, action) == state.(ui := state.ui.(statusMessage := action.message))
    ensures action.Unknown? ==> Reduce(state, action) == state
  {
  }
}
