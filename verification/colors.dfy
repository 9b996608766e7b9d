/** `src/state/colors.ts`: object colours are handed out from a ten-colour
    palette by position, cycling; the palette leaves out the blue used for
    panorama markers. */
module Colors {
  import opened Common
  import opened OrderedMap

  const Palette: seq<string> := [
    "#f97316", "#22c55e", "#e11d48", "#14b8a6", "#a855f7",
    "#facc15", "#ef4444", "#8b5cf6", "#d946ef", "#84cc16"]

  /** The colour of panorama markers. */
  const PanoMarker: string := "#0ea5e9"

  /** The colour of position `idx`: `palette[idx % palette.length]`. */
  function SlotColor(idx: nat): (c: string)
    ensures c in Palette && c != PanoMarker
  {
    Palette[idx % |Palette|]
  }

  /** Two positions share a colour exactly when they are a multiple of ten
      apart; in particular ten consecutive positions get ten colours. */
  lemma SlotColorsCycle(i: nat, j: nat)
    ensures SlotColor(i) == SlotColor(j) <==> (i - j) % 10 == 0
  {
    assert NoDup(Palette);
    assert (i - j) % 10 == 0 <==> i % 10 == j % 10;
  }

  /** The `(id, colour)` writes `buildColorMap` makes, in order. */
  function ColorWrites(objectIds: seq<string>): (kvs: seq<(string, string)>)
    ensures |kvs| == |objectIds|
    ensures EntryKeys(kvs) == objectIds
    ensures forall i :: 0 <= i < |kvs| ==> kvs[i] == (objectIds[i], SlotColor(i))
  {
    seq(|objectIds|, i requires 0 <= i < |objectIds| => (objectIds[i], SlotColor(i)))
  }

  /** `buildColorMap`: `map[id] = palette[idx % 10]` for each position in
      turn. */
  function BuildColorMap(objectIds: seq<string>): OMap<string, string> {
    FromEntries(ColorWrites(objectIds))
  }

  /** Every listed id gets a colour and nothing else does; a repeated id
      keeps the place of its first position. */
  lemma BuildColorMapKeys(objectIds: seq<string>)
    ensures Keys(BuildColorMap(objectIds)) == Dedup(objectIds)
    ensures forall k :: Get(BuildColorMap(objectIds), k).Some? <==> k in objectIds
  {
    var m := BuildColorMap(objectIds);
    FromEntriesSpec(ColorWrites(objectIds));
    forall k
      ensures Get(m, k).Some? <==> k in objectIds
    {
      GetEntry(m, k);
    }
  }

  /** An id gets the colour of its last position. */
  lemma ColorOfLastPosition(objectIds: seq<string>, i: nat)
    requires i < |objectIds|
    requires forall j :: i < j < |objectIds| ==> objectIds[j] != objectIds[i]
    ensures Get(BuildColorMap(objectIds), objectIds[i]) == Some(SlotColor(i))
  {
    var kvs := ColorWrites(objectIds);
    FromEntriesSpec(kvs);
    LastValueAt(kvs, i);
  }

  /** No object is given the panorama marker colour. */
  lemma NeverMarkerBlue(objectIds: seq<string>, k: string)
    requires Get(BuildColorMap(objectIds), k).Some?
    ensures Get(BuildColorMap(objectIds), k).value != PanoMarker
  {
    var kvs := ColorWrites(objectIds);
    FromEntriesSpec(kvs);
    LastValueIsEntry(kvs, k);
  }
}
