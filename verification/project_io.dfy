/** The pure part of `src/data/projectIO.ts`: turning already-parsed CSV rows
    into detections, panoramas and a saved project's observations and
    objects. Reading files, CSV parsing and image-file lookup are I/O and are
    not modelled; a row is given with its fields already typed. */
module ProjectIO {
  import opened Common
  import opened OrderedMap
  import opened Types
  import opened AssignCommon
  import Ids

  /** A row of the boxes CSV. */
  datatype BoxRow = BoxRow(panoId: string, xmin: real, ymin: real, xmax: real, ymax: real, score: Option<real>)

  /** A row of the metadata CSV; the longitude column is `lon`. */
  datatype MetaRow = MetaRow(panoId: string, lat: real, lon: real, heading: real, imageWidth: real, imageHeight: real)

  /** A row of the project CSV. Cells the source reads with `??` defaults
      are optional. */
  datatype ProjectRow = ProjectRow(
    rowType: string,
    objectId: string,
    panoId: string,
    obsId: Option<string>,
    detectionId: Option<string>,
    bearingDeg: Option<real>,
    color: Option<string>,
    objLat: Option<real>,
    objLng: Option<real>,
    nObs: Option<int>,
    rmsM: Option<real>)

  /** A saved project: observation lists and object summaries by object id. */
  datatype Project = Project(
    observationsByObjectId: OMap<string, seq<Observation>>,
    objectsById: OMap<string, ProjectObject>)

  /** The colour an object row without one gets. */
  const DefaultColor: string := "#0ea5e9"

  /** One box row as a detection, its id made from its own fields. */
  function BoxDetection(show: real -> string, row: BoxRow): (d: Detection)
    ensures d.panoId == row.panoId && d.score == row.score
    ensures d.xmin == row.xmin && d.ymin == row.ymin && d.xmax == row.xmax && d.ymax == row.ymax
    ensures d.detectionId == Ids.MakeDetectionId(show, row.panoId, row.xmin, row.ymin, row.xmax, row.ymax, row.score)
  {
    Detection(Ids.MakeDetectionId(show, row.panoId, row.xmin, row.ymin, row.xmax, row.ymax, row.score),
              row.panoId, row.xmin, row.ymin, row.xmax, row.ymax, row.score)
  }

  /** The `rows.map` of `loadBoxes`. */
  function LoadBoxes(show: real -> string, rows: seq<BoxRow>): (ds: seq<Detection>)
    ensures |ds| == |rows|
    ensures forall i :: 0 <= i < |rows| ==> ds[i] == BoxDetection(show, rows[i])
  {
    seq(|rows|, i requires 0 <= i < |rows| => BoxDetection(show, rows[i]))
  }

  /** A loaded detection's id gives back its row's pano id and printed box,
      provided printed numbers contain no `_` (JavaScript's never do). */
  lemma LoadedIdsDecode(show: real -> string, rows: seq<BoxRow>, i: nat)
    requires i < |rows|
    requires forall x :: '_' !in show(x)
    ensures var r := rows[i];
            Ids.ParseDetectionId(LoadBoxes(show, rows)[i].detectionId)
            == Some((r.panoId, [show(r.xmin), show(r.ymin), show(r.xmax), show(r.ymax), Ids.ScoreText(show, r.score)]))
  {
    var r := rows[i];
    Ids.DetectionIdRoundTrip(show, r.panoId, r.xmin, r.ymin, r.xmax, r.ymax, r.score);
  }

  /** The `panos.push` of `loadMetadata`: one panorama per row, in row
      order, `lng` read from `lon`. */
  function LoadMetadata(rows: seq<MetaRow>): (ps: seq<Pano>)
    ensures |ps| == |rows|
    ensures forall i :: 0 <= i < |rows| ==>
              ps[i] == Pano(rows[i].panoId, rows[i].lat, rows[i].lon, rows[i].heading, rows[i].imageWidth, rows[i].imageHeight)
    decreases |rows|
  {
    if |rows| == 0 then []
    else
      var row := rows[|rows| - 1];
      LoadMetadata(rows[..|rows| - 1]) + [Pano(row.panoId, row.lat, row.lon, row.heading, row.imageWidth, row.imageHeight)]
  }

  /** The observation an `OBS` row describes, with the source's defaults. */
  function RowObservation(row: ProjectRow): (o: Observation)
    ensures o.objectId == row.objectId && o.panoId == row.panoId
    ensures o.obsId == row.obsId.GetOr("") && o.detectionId == row.detectionId.GetOr("")
    ensures o.bearingDeg == row.bearingDeg.GetOr(0.0) && o.geometry.None?
  {
    Observation(row.obsId.GetOr(""), row.objectId, row.detectionId.GetOr(""), row.panoId, row.bearingDeg.GetOr(0.0), None)
  }

  /** The object an `OBJ` row describes, with the source's defaults. */
  function RowObject(row: ProjectRow): (p: ProjectObject)
    ensures p.objectId == row.objectId && p.color == row.color.GetOr(DefaultColor)
    ensures p.lat == row.objLat && p.lng == row.objLng && p.rmsM == row.rmsM
    ensures p.nObs == row.nObs.GetOr(0) && p.updatedAt.None?
  {
    ProjectObject(row.objectId, row.color.GetOr(DefaultColor), row.objLat, row.objLng, row.nObs.GetOr(0), row.rmsM, None)
  }

  /** One iteration of the `rows.forEach` of `loadProject`. */
  function ApplyRow(p: Project, row: ProjectRow): Project {
    var lists := if row.rowType == "OBS" then
                   Put(p.observationsByObjectId, row.objectId, ListOf(p.observationsByObjectId, row.objectId) + [RowObservation(row)])
                 else p.observationsByObjectId;
    var objects := if row.rowType == "OBJ" then Put(p.objectsById, row.objectId, RowObject(row)) else p.objectsById;
    Project(lists, objects)
  }

  /** `loadProject` over parsed rows. */
  function LoadProject(rows: seq<ProjectRow>): Project
    decreases |rows|
  {
    if |rows| == 0 then Project([], [])
    else ApplyRow(LoadProject(rows[..|rows| - 1]), rows[|rows| - 1])
  }

  /** The observations of the `OBS` rows of one object, in row order: the
      reference the fold is compared with. */
  function ObservationsOf(rows: seq<ProjectRow>, objectId: string): seq<Observation>
    decreases |rows|
  {
    if |rows| == 0 then []
    else
      var row := rows[|rows| - 1];
      ObservationsOf(rows[..|rows| - 1], objectId)
        + (if row.rowType == "OBS" && row.objectId == objectId then [RowObservation(row)] else [])
  }

  /** The `OBJ` rows as `(object_id, object)` writes. */
  function ObjectWrites(rows: seq<ProjectRow>): seq<(string, ProjectObject)>
    decreases |rows|
  {
    if |rows| == 0 then []
    else
      var row := rows[|rows| - 1];
      ObjectWrites(rows[..|rows| - 1]) + (if row.rowType == "OBJ" then [(row.objectId, RowObject(row))] else [])
  }

  /** Every object's list holds its `OBS` rows in row order, and only
      objects with such rows have a list. */
  lemma {:induction false} LoadProjectObservations(rows: seq<ProjectRow>, objectId: string)
    ensures ListOf(LoadProject(rows).observationsByObjectId, objectId) == ObservationsOf(rows, objectId)
    ensures Get(LoadProject(rows).observationsByObjectId, objectId).Some? <==> |ObservationsOf(rows, objectId)| > 0
    decreases |rows|
  {
    if |rows| > 0 {
      var init := rows[..|rows| - 1];
      var row := rows[|rows| - 1];
      var lists := LoadProject(init).observationsByObjectId;
      LoadProjectObservations(init, objectId);
      if row.rowType == "OBS" {
        var v := ListOf(lists, row.objectId) + [RowObservation(row)];
        ListOfPut(lists, row.objectId, v, objectId);
        if objectId == row.objectId {
          GetPutSame(lists, row.objectId, v);
        } else {
          GetPutOther(lists, row.objectId, v, objectId);
        }
      }
    }
  }

  /** The objects are the `OBJ` rows written in order, so the last row for
      an id wins and an id keeps the place of its first row. */
  lemma {:induction false} LoadProjectObjects(rows: seq<ProjectRow>)
    ensures LoadProject(rows).objectsById == FromEntries(ObjectWrites(rows))
    decreases |rows|
  {
    if |rows| > 0 {
      var init := rows[..|rows| - 1];
      var row := rows[|rows| - 1];
      LoadProjectObjects(init);
      if row.rowType == "OBJ" {
        var w := ObjectWrites(rows);
        assert w[..|w| - 1] == ObjectWrites(init);
      } else {
        assert ObjectWrites(rows) == ObjectWrites(init);
      }
    }
  }

  /** An object's summary is the one of the last `OBJ` row with its id. */
  lemma LastObjectRowWins(rows: seq<ProjectRow>, objectId: string)
    ensures Get(LoadProject(rows).objectsById, objectId) == LastValue(ObjectWrites(rows), objectId)
  {
    LoadProjectObjects(rows);
    FromEntriesSpec(ObjectWrites(rows));
  }

  /** A row that is neither `OBS` nor `OBJ` changes nothing. */
  lemma OtherRowsIgnored(rows: seq<ProjectRow>, row: ProjectRow)
    requires row.rowType != "OBS" && row.rowType != "OBJ"
    ensures LoadProject(rows + [row]) == LoadProject(rows)
  {
    assert (rows + [row])[..|rows|] == rows;
  }
}
