/** `src/state/selectors.ts`: read-only views of the state. They read the
    state type of `src/state/store.ts`, whose maps they use are the same as
    the newer store's. */
module Selectors {
  import opened Common
  import opened OrderedMap
  import opened Types
  import LegacyStore

  /** `Object.values(state.panosById)`. */
  function SelectPanos(state: LegacyStore.AppState): seq<Pano> {
    Values(state.panosById)
  }

  /** `Object.values(state.detectionsById).filter((d) => d.pano_id === panoId)`. */
  function SelectDetectionsForPano(state: LegacyStore.AppState, panoId: string): seq<Detection> {
    OnPano(Values(state.detectionsById), panoId)
  }

  /** `selectPanos` gives one panorama per key, the one stored under it, in
      key order. */
  lemma SelectPanosSpec(state: LegacyStore.AppState)
    ensures |SelectPanos(state)| == |Keys(state.panosById)|
    ensures forall i :: 0 <= i < |state.panosById| ==>
              Get(state.panosById, Keys(state.panosById)[i]) == Some(SelectPanos(state)[i])
  {
    forall i | 0 <= i < |state.panosById|
      ensures Get(state.panosById, Keys(state.panosById)[i]) == Some(SelectPanos(state)[i])
    {
      GetEntry(state.panosById, state.panosById[i].0);
    }
  }

  /** `selectDetectionsForPano` returns exactly the stored detections on
      that panorama, in the map's value order, and never more than are
      stored. */
  lemma SelectDetectionsForPanoSpec(state: LegacyStore.AppState, panoId: string)
    ensures var r := SelectDetectionsForPano(state, panoId);
            && IsSubseq(r, Values(state.detectionsById))
            && |r| <= |state.detectionsById|
            && (forall d :: d in r ==> d.panoId == panoId)
            && (forall k :: Get(state.detectionsById, k).Some? && Get(state.detectionsById, k).value.panoId == panoId ==>
                  Get(state.detectionsById, k).value in r)
  {
    var m := state.detectionsById;
    var r := SelectDetectionsForPano(state, panoId);
    OnPanoIsSubseq(Values(m), panoId);
    OnPanoMembers(Values(m), panoId);
    SubseqElements(r, Values(m));
    forall k | Get(m, k).Some? && Get(m, k).value.panoId == panoId
      ensures Get(m, k).value in r
    {
      GetEntry(m, k);
      var i :| 0 <= i < |m| && m[i] == (k, Get(m, k).value);
      assert Values(m)[i] == Get(m, k).value;
    }
  }
}
