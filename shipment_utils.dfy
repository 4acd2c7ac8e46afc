/**
 * Shipments: reading one shipment, the shipment manifest (one row per specimen of each box
 * on the shipment), the status updates of a shipment and of its boxes, completing a shipment
 * (with its compensating revert), and linking a box to a shipment.
 */
module ShipmentUtils {
  import opened Wrappers
  import opened Php
  import opened RecordStore
  import opened PlateUtils
  import opened RedcapUtils

  // ---------------------------------------------------------------- messages

  const InvalidStatusShipment := "Cannot update shipment status.  The [shipment_record_id] is invalid or missing."
  const InvalidCompleteShipment := "Cannot complete shipment.  The [shipment_record_id] is invalid or missing."
  const InvalidLinkBox := "Cannot update box/shipment.  The [box_record_id] is invalid or missing."
  const InvalidLinkShipment := "Cannot update box/shipment.  The [shipment_record_id] must be null or numeric."

  function NoStatusShipment(id: string): string {
    "Cannot update shipment status.  No shipment exists with [record_id]=" + id + "."
  }

  function AlreadyAtStatus(status: string): string {
    "Aborting request.  Shipment status is already '" + status + "'."
  }

  function NoLinkBox(boxId: string): string {
    "Cannot update box/shipment.  No box exists with [record_id]=" + boxId + "."
  }

  function NoLinkShipment(shipmentId: string): string {
    "Cannot update box/shipment.  No shipment exists with [record_id]=" + shipmentId + "."
  }

  // ---------------------------------------------------------------- reading shipments

  /** `getShipment`: the shipment's first-event row, or [] for a non-numeric id or a missing record. */
  function ShipmentOf(t: Tables, sh: ProjectMeta, id: string): (row: Row)
    ensures row == [] || KeysOf(row) == sh.Names()
  {
    if !IsNumericStr(id) then []
    else
      BoxesSelected(t, sh, [id], id);
      Get(GetData(t, sh.id, [id], sh.Names()), id).GetOr([])
  }

  /** A shipment is found exactly when its id is numeric, its record exists and the project has fields. */
  lemma ShipmentFound(t: Tables, sh: ProjectMeta, id: string)
    ensures ShipmentOf(t, sh, id) != [] <==> IsNumericStr(id) && RecordExists(t, sh.id, id) && sh.fields != []
    ensures IsNumericStr(id) && RecordExists(t, sh.id, id) ==> ShipmentOf(t, sh, id) == RowOf(t, sh.id, id, sh.Names())
  {
    BoxesSelected(t, sh, [id], id);
    assert |sh.Names()| == |sh.fields|;
  }

  /** A row of raw values shown through the field display mapping. */
  function DisplayRow(proj: ProjectMeta, row: Row, dates: DateFunctions): (d: Assoc<FieldValue>)
    ensures KeysOf(d) == KeysOf(row)
  {
    seq(|row|, i requires 0 <= i < |row| => (row[i].0, FieldDisplayValue(proj, row[i].0, Text(row[i].1), dates).value))
  }

  /** `getShipments`: every shipment's displayed row, as a list in record order (not keyed by record). */
  function Shipments(t: Tables, sh: ProjectMeta, dates: DateFunctions): (list: seq<Assoc<FieldValue>>)
    ensures |list| == |Listed(t, sh.id)|
    ensures forall i :: 0 <= i < |list| ==>
      list[i] == DisplayRow(sh, RowOf(t, sh.id, Listed(t, sh.id)[i], sh.Names()), dates)
  {
    var data := GetData(t, sh.id, [], sh.Names());
    seq(|data|, i requires 0 <= i < |data| => DisplayRow(sh, data[i].1, dates))
  }

  // ---------------------------------------------------------------- the manifest

  const ShipmentColumns: seq<string> :=
    ["shipment_name", "shipment_date", "sample_type", "shipment_to", "shipment_location", "shipment_tracking"]
  const SpecimenColumns: seq<string> := ["name", "csid", "cuid", "box_position", "volume", "comment"]

  /** A cell of an outer join: NULL when the record stores no value for the field. */
  function CellOrNull(t: Tables, project: string, record: string, field: string): Option<string> {
    if HasCell(t, project, record, field) then Some(Value(t, project, record, field)) else None
  }

  /** Whether a box is on the shipment and has a name (the box query's join). */
  predicate ShippedBox(t: Tables, coll: Collation, box: ProjectMeta, id: string, r: string) {
    && HasCell(t, box.id, r, "shipment_record_id") && SqlEq(coll, Value(t, box.id, r, "shipment_record_id"), id)
    && HasCell(t, box.id, r, "box_name")
  }

  function ShippedBoxesIn(t: Tables, coll: Collation, box: ProjectMeta, id: string, rs: seq<string>): (out: seq<Keyed>)
    ensures forall k :: k in out <==>
      k.record in rs && ShippedBox(t, coll, box, id, k.record) && k.key == Some(Value(t, box.id, k.record, "box_name"))
  {
    if |rs| == 0 then []
    else
      var rest := ShippedBoxesIn(t, coll, box, id, rs[1..]);
      if ShippedBox(t, coll, box, id, rs[0]) then [Keyed(rs[0], Some(Value(t, box.id, rs[0], "box_name")))] + rest
      else rest
  }

  /** The boxes of a shipment, ordered by box name. */
  function ManifestBoxes(t: Tables, coll: Collation, box: ProjectMeta, id: string): (bs: seq<Keyed>)
    ensures SortedByKey(coll, bs)
    ensures forall k :: k in bs <==>
      RecordExists(t, box.id, k.record) && ShippedBox(t, coll, box, id, k.record)
      && k.key == Some(Value(t, box.id, k.record, "box_name"))
  {
    var found := ShippedBoxesIn(t, coll, box, id, Listed(t, box.id));
    var bs := SortByKey(coll, found);
    assert forall k :: k in bs <==> k in multiset(bs);
    assert forall k :: k in found <==> k in multiset(found);
    bs
  }

  /** Whether a specimen is in box `b` and has a name (the specimen query's join). */
  predicate BoxedSpecimen(t: Tables, sp: ProjectMeta, b: string, r: string) {
    && HasCell(t, sp.id, r, "box_record_id") && Value(t, sp.id, r, "box_record_id") == b
    && HasCell(t, sp.id, r, "name")
  }

  function BoxedSpecimensIn(t: Tables, sp: ProjectMeta, b: string, rs: seq<string>): (out: seq<Keyed>)
    ensures forall k :: k in out <==>
      k.record in rs && BoxedSpecimen(t, sp, b, k.record) && k.key == CellOrNull(t, sp.id, k.record, "box_position")
  {
    if |rs| == 0 then []
    else
      var rest := BoxedSpecimensIn(t, sp, b, rs[1..]);
      if BoxedSpecimen(t, sp, b, rs[0]) then [Keyed(rs[0], CellOrNull(t, sp.id, rs[0], "box_position"))] + rest
      else rest
  }

  /** The specimens of one box, ordered by box position (no position first). */
  function BoxSpecimens(t: Tables, coll: Collation, sp: ProjectMeta, b: string): (ss: seq<Keyed>)
    ensures SortedByKey(coll, ss)
    ensures forall k :: k in ss <==>
      RecordExists(t, sp.id, k.record) && BoxedSpecimen(t, sp, b, k.record)
      && k.key == CellOrNull(t, sp.id, k.record, "box_position")
  {
    var found := BoxedSpecimensIn(t, sp, b, Listed(t, sp.id));
    var ss := SortByKey(coll, found);
    assert forall k :: k in ss <==> k in multiset(ss);
    assert forall k :: k in found <==> k in multiset(found);
    ss
  }

  function Nullable(v: Option<string>): FieldValue {
    match v
    case None => Missing
    case Some(s) => Text(s)
  }

  /** The shipment part of every manifest row: the listed shipment fields, displayed. */
  function ShipmentPart(sh: ProjectMeta, shipment: Row, dates: DateFunctions): Assoc<FieldValue> {
    DisplayRow(sh, IntersectKeys(shipment, set c | c in ShipmentColumns), dates)
  }

  /**
   * The shipment part with `study_name` spliced in at offset 1. A null study name would read as
   * "" here; it cannot occur, since a configuration without one is refused (`StudyNameMissing`).
   */
  function WithStudyName(part: Assoc<FieldValue>, studyName: PhpVal): Assoc<FieldValue> {
    Merge(Merge(Slice(part, 0, 1), [("study_name", Text(ToStr(studyName)))]), Slice(part, 1, |part|))
  }

  /** The box query's row reduced to the box columns: its name. */
  function BoxPart(b: Keyed): Assoc<FieldValue> {
    [("box_name", Nullable(b.key))]
  }

  /** The specimen query's row reduced to the specimen columns. */
  function SpecimenPart(t: Tables, sp: ProjectMeta, r: string): (part: Assoc<FieldValue>)
    ensures KeysOf(part) == SpecimenColumns
  {
    seq(|SpecimenColumns|, i requires 0 <= i < |SpecimenColumns| =>
      (SpecimenColumns[i], Nullable(CellOrNull(t, sp.id, r, SpecimenColumns[i]))))
  }

  /** One row per specimen: the given leading columns, then the specimen's columns. */
  function SpecimenRows(t: Tables, sp: ProjectMeta, head: Assoc<FieldValue>, ss: seq<Keyed>): (rows: seq<Assoc<FieldValue>>)
    ensures |rows| == |ss|
  {
    seq(|ss|, j requires 0 <= j < |ss| => Merge(head, SpecimenPart(t, sp, ss[j].record)))
  }

  /** The rows of one box: one per specimen, in position order. */
  function BoxRows(t: Tables, coll: Collation, sp: ProjectMeta, shipPart: Assoc<FieldValue>, b: Keyed): (rows: seq<Assoc<FieldValue>>)
    ensures |rows| == |BoxSpecimens(t, coll, sp, b.record)|
  {
    SpecimenRows(t, sp, Merge(shipPart, BoxPart(b)), BoxSpecimens(t, coll, sp, b.record))
  }

  /** The rows of the boxes in turn. */
  function ManifestRows(t: Tables, coll: Collation, sp: ProjectMeta, shipPart: Assoc<FieldValue>, bs: seq<Keyed>): seq<Assoc<FieldValue>>
    decreases |bs|
  {
    if |bs| == 0 then []
    else ManifestRows(t, coll, sp, shipPart, bs[..|bs| - 1]) + BoxRows(t, coll, sp, shipPart, bs[|bs| - 1])
  }

  datatype Manifest = Manifest(shipment: Row, rows: seq<Assoc<FieldValue>>)

  /** `getShipmentManifestData`: nothing for a non-numeric id or a missing shipment. */
  function ManifestData(t: Tables, coll: Collation, sh: ProjectMeta, box: ProjectMeta, sp: ProjectMeta, id: string,
                        studyName: PhpVal, dates: DateFunctions): Option<Manifest> {
    if !IsNumericStr(id) then None
    else
      var shipment := ShipmentOf(t, sh, id);
      if shipment == [] then None
      else
        Some(ManifestOf(t, coll, sh, box, sp, id, shipment, studyName, dates))
  }

  /** The manifest of a found shipment. */
  function ManifestOf(t: Tables, coll: Collation, sh: ProjectMeta, box: ProjectMeta, sp: ProjectMeta, id: string, shipment: Row,
                      studyName: PhpVal, dates: DateFunctions): Manifest {
    var shipPart := WithStudyName(ShipmentPart(sh, shipment, dates), studyName);
    Manifest(shipment, ManifestRows(t, coll, sp, shipPart, ManifestBoxes(t, coll, box, id)))
  }

  method GetShipmentManifestData(t: Tables, coll: Collation, sh: ProjectMeta, box: ProjectMeta, sp: ProjectMeta, id: string,
                                 studyName: PhpVal, dates: DateFunctions) returns (m: Option<Manifest>)
    ensures m == ManifestData(t, coll, sh, box, sp, id, studyName, dates)
  {
    if !IsNumericStr(id) {
      return None;
    }
    var shipment := ShipmentOf(t, sh, id);
    if shipment == [] {
      return None;
    }
    var manifest := BuildManifest(t, coll, sh, box, sp, id, shipment, studyName, dates);
    m := Some(manifest);
  }

  method BuildManifest(t: Tables, coll: Collation, sh: ProjectMeta, box: ProjectMeta, sp: ProjectMeta, id: string, shipment: Row,
                       studyName: PhpVal, dates: DateFunctions) returns (m: Manifest)
    ensures m == ManifestOf(t, coll, sh, box, sp, id, shipment, studyName, dates)
  {
    var boxes := ManifestBoxes(t, coll, box, id);
    var shipmentData := ShipmentPart(sh, shipment, dates);
    var spliced, _ := ArraySpliceAssoc(shipmentData, 1, 0, [("study_name", Text(ToStr(studyName)))]);
    assert spliced == WithStudyName(shipmentData, studyName);
    var result := ManifestRowsOf(t, coll, sp, spliced, boxes);
    m := Manifest(shipment, result);
  }

  /** The outer loop of the manifest: the rows of each box in turn. */
  method ManifestRowsOf(t: Tables, coll: Collation, sp: ProjectMeta, shipPart: Assoc<FieldValue>, boxes: seq<Keyed>)
    returns (result: seq<Assoc<FieldValue>>)
    ensures result == ManifestRows(t, coll, sp, shipPart, boxes)
  {
    result := [];
    for i := 0 to |boxes|
      invariant result == ManifestRows(t, coll, sp, shipPart, boxes[..i])
    {
      assert boxes[..i + 1][..i] == boxes[..i];
      var rows := BoxRowsOf(t, coll, sp, shipPart, boxes[i]);
      result := result + rows;
    }
    assert boxes[..|boxes|] == boxes;
  }

  /** The inner loop of the manifest: one row per specimen of the box. */
  method BoxRowsOf(t: Tables, coll: Collation, sp: ProjectMeta, shipPart: Assoc<FieldValue>, b: Keyed) returns (rows: seq<Assoc<FieldValue>>)
    ensures rows == BoxRows(t, coll, sp, shipPart, b)
  {
    var specimens := BoxSpecimens(t, coll, sp, b.record);
    var boxData := BoxPart(b);
    rows := RowsForSpecimens(t, sp, Merge(shipPart, boxData), specimens);
  }

  method RowsForSpecimens(t: Tables, sp: ProjectMeta, head: Assoc<FieldValue>, specimens: seq<Keyed>)
    returns (rows: seq<Assoc<FieldValue>>)
    ensures rows == SpecimenRows(t, sp, head, specimens)
  {
    rows := [];
    for j := 0 to |specimens|
      invariant rows == SpecimenRows(t, sp, head, specimens[..j])
    {
      rows := rows + [Merge(head, SpecimenPart(t, sp, specimens[j].record))];
    }
    assert specimens[..|specimens|] == specimens;
  }

  /** There is a manifest exactly when the id is numeric and the shipment exists with data. */
  lemma ManifestGuard(t: Tables, coll: Collation, sh: ProjectMeta, box: ProjectMeta, sp: ProjectMeta, id: string,
                      studyName: PhpVal, dates: DateFunctions)
    ensures ManifestData(t, coll, sh, box, sp, id, studyName, dates).Some? <==>
      IsNumericStr(id) && RecordExists(t, sh.id, id) && sh.fields != []
    ensures ManifestData(t, coll, sh, box, sp, id, studyName, dates).Some? ==>
      ManifestData(t, coll, sh, box, sp, id, studyName, dates).value.shipment == RowOf(t, sh.id, id, sh.Names())
  {
    ShipmentFound(t, sh, id);
  }

  /** The shipment part holds distinct keys, all of them listed shipment columns. */
  lemma ShipmentPartKeys(sh: ProjectMeta, shipment: Row, dates: DateFunctions)
    requires DistinctKeys(shipment)
    ensures var part := ShipmentPart(sh, shipment, dates);
      DistinctKeys(part) && forall i :: 0 <= i < |part| ==> part[i].0 in ShipmentColumns
  {
    var keys := set c | c in ShipmentColumns;
    IntersectGet(shipment, keys, "");
    var part := ShipmentPart(sh, shipment, dates);
    assert KeysOf(part) == KeysOf(IntersectKeys(shipment, keys));
    forall i | 0 <= i < |part|
      ensures part[i].0 in ShipmentColumns
    {
      assert part[i].0 == KeysOf(part)[i] == IntersectKeys(shipment, keys)[i].0;
    }
    forall i, j | 0 <= i < j < |part|
      ensures part[i].0 != part[j].0
    {
      assert part[i].0 == IntersectKeys(shipment, keys)[i].0;
      assert part[j].0 == IntersectKeys(shipment, keys)[j].0;
    }
  }

  /**
   * `study_name` becomes the second column of a non-empty shipment part (the first of an
   * empty one), and the shipment columns keep their order around it.
   */
  lemma StudyNameSecond(part: Assoc<FieldValue>, studyName: PhpVal)
    requires DistinctKeys(part) && "study_name" !in KeysOf(part)
    ensures var spliced := WithStudyName(part, studyName);
      var study := ("study_name", Text(ToStr(studyName)));
      && (|part| > 0 ==> spliced == part[..1] + [study] + part[1..])
      && (|part| == 0 ==> spliced == [study])
  {
    var study := ("study_name", Text(ToStr(studyName)));
    if |part| > 0 {
      SpliceInserts(part, 1, [study]);
      SliceNonNegative(part, 0, 1);
      SliceNonNegative(part, 1, |part|);
    } else {
      assert Slice(part, 0, 1) == [] && Slice(part, 1, 0) == [];
      assert Put([], study.0, study.1) == [study];
      assert [study][1..] == [];
      assert Merge([], [study]) == Merge([study], []) == [study];
    }
  }

  /** Inserting a new key into an association with distinct keys keeps them distinct. */
  lemma InsertKeepsDistinct(part: Assoc<FieldValue>, study: (string, FieldValue))
    requires |part| > 0 && DistinctKeys(part) && study.0 !in KeysOf(part)
    ensures DistinctKeys(part[..1] + [study] + part[1..])
  {
    var spliced := part[..1] + [study] + part[1..];
    forall i, j | 0 <= i < j < |spliced|
      ensures spliced[i].0 != spliced[j].0
    {
      if i == 1 {
        assert spliced[j] == part[j - 1];
      } else if j == 1 {
        assert spliced[i] == part[0];
      } else {
        assert spliced[i] == part[if i == 0 then 0 else i - 1];
        assert spliced[j] == part[j - 1];
      }
    }
  }

  /**
   * Every manifest row of a box is the shipment part, then `box_name`, then the six specimen
   * columns, with the specimen's stored values (NULL where it has none).
   */
  lemma ManifestRowColumns(t: Tables, coll: Collation, sp: ProjectMeta, shipPart: Assoc<FieldValue>, b: Keyed, j: nat)
    requires DistinctKeys(shipPart)
    requires forall i :: 0 <= i < |shipPart| ==> shipPart[i].0 in ShipmentColumns || shipPart[i].0 == "study_name"
    requires j < |BoxSpecimens(t, coll, sp, b.record)|
    ensures var s := BoxSpecimens(t, coll, sp, b.record)[j].record;
      && BoxRows(t, coll, sp, shipPart, b)[j] == shipPart + BoxPart(b) + SpecimenPart(t, sp, s)
      && KeysOf(BoxRows(t, coll, sp, shipPart, b)[j]) == KeysOf(shipPart) + ["box_name"] + SpecimenColumns
      && BoxedSpecimen(t, sp, b.record, s)
  {
    var ss := BoxSpecimens(t, coll, sp, b.record);
    assert ss[j] in ss;
    RowConcat(shipPart, BoxPart(b), SpecimenPart(t, sp, ss[j].record));
  }

  /** The three parts of a manifest row have no key in common, so merging them concatenates them. */
  lemma RowConcat(shipPart: Assoc<FieldValue>, boxPart: Assoc<FieldValue>, part: Assoc<FieldValue>)
    requires DistinctKeys(shipPart)
    requires forall i :: 0 <= i < |shipPart| ==> shipPart[i].0 in ShipmentColumns || shipPart[i].0 == "study_name"
    requires KeysOf(boxPart) == ["box_name"] && KeysOf(part) == SpecimenColumns
    ensures Merge(Merge(shipPart, boxPart), part) == shipPart + boxPart + part
    ensures KeysOf(shipPart + boxPart + part) == KeysOf(shipPart) + ["box_name"] + SpecimenColumns
  {
    ColumnsDisjoint();
    KeysOfConcat(shipPart, boxPart);
    KeysOfConcat(shipPart + boxPart, part);
    assert forall i :: 0 <= i < |part| ==> part[i].0 == SpecimenColumns[i];
    assert forall i :: 0 <= i < |boxPart| ==> boxPart[i].0 == "box_name";
    MergeThree(shipPart, boxPart, part);
  }

  lemma ColumnsDisjoint()
    ensures forall c :: c in SpecimenColumns ==> c !in ShipmentColumns && c != "study_name" && c != "box_name"
    ensures "box_name" !in ShipmentColumns && "study_name" !in ShipmentColumns
    ensures forall i, j :: 0 <= i < j < |SpecimenColumns| ==> SpecimenColumns[i] != SpecimenColumns[j]
  {
  }

  /** The boxes of a manifest come in name order and the specimens of each box in position order. */
  lemma ManifestOrder(t: Tables, coll: Collation, box: ProjectMeta, sp: ProjectMeta, id: string, b: string)
    ensures forall i :: 0 < i < |ManifestBoxes(t, coll, box, id)| ==>
      KeyLe(coll, ManifestBoxes(t, coll, box, id)[i - 1].key, ManifestBoxes(t, coll, box, id)[i].key)
    ensures forall i :: 0 < i < |BoxSpecimens(t, coll, sp, b)| ==>
      KeyLe(coll, BoxSpecimens(t, coll, sp, b)[i - 1].key, BoxSpecimens(t, coll, sp, b)[i].key)
  {
  }

  // ---------------------------------------------------------------- status updates

  /** How a status update ends: done, host save errors returned, or a request-ending error. */
  datatype StatusResult = Updated | SaveFailed(errors: seq<string>) | Aborted(errors: seq<string>)

  /** The save data that sets one field of one record. */
  function FieldData(record: string, field: string, value: string): Assoc<Row> {
    [(record, [(field, value)])]
  }

  /** The error that ends an `updateShipmentStatus` request before any write, if any. */
  function StatusGuard(t: Tables, sh: ProjectMeta, id: string, status: string): Option<string> {
    if !IsNumericStr(id) then Some(InvalidStatusShipment)
    else if ShipmentOf(t, sh, id) == [] then Some(NoStatusShipment(id))
    else if Get(ShipmentOf(t, sh, id), "shipment_status") == Some(status) then
      Some(AlreadyAtStatus(status))
    else None
  }

  /** `updateShipmentStatus` with the already-at-target guard reading the shipment's own status. */
  function StatusUpdate(t: Tables, sh: ProjectMeta, id: string, status: string, hostErrors: seq<string>): (Tables, StatusResult) {
    match StatusGuard(t, sh, id, status)
    case Some(e) => (t, Aborted([e]))
    case None =>
      if hostErrors == [] then (Write(t, sh.id, FieldData(id, "shipment_status", status)), Updated)
      else (t, SaveFailed(hostErrors))
  }

  /**
   * `$shipment[$eventId]["shipment_status"]` as written, on a row that `getShipment` already
   * took out of its event: the row is keyed by field names, none of which is an event id,
   * so the lookup is null.
   */
  function StatusUnderEvent(shipment: Row, eventId: string): (s: Option<string>)
    ensures eventId !in KeysOf(shipment) ==> s.None?
  {
    match Get(shipment, eventId)
    case None => None
    case Some(v) => None
  }

  /** The guard of `updateShipmentStatus` as written: the status comparison reads the event-keyed lookup. */
  function StatusGuardAsWritten(t: Tables, sh: ProjectMeta, eventId: string, id: string, status: string): Option<string> {
    if !IsNumericStr(id) then Some(InvalidStatusShipment)
    else if ShipmentOf(t, sh, id) == [] then Some(NoStatusShipment(id))
    else if StatusUnderEvent(ShipmentOf(t, sh, id), eventId) == Some(status) then
      Some(AlreadyAtStatus(status))
    else None
  }

  function StatusUpdateAsWritten(t: Tables, sh: ProjectMeta, eventId: string, id: string, status: string,
                                 hostErrors: seq<string>): (Tables, StatusResult) {
    match StatusGuardAsWritten(t, sh, eventId, id, status)
    case Some(e) => (t, Aborted([e]))
    case None =>
      if hostErrors == [] then (Write(t, sh.id, FieldData(id, "shipment_status", status)), Updated)
      else (t, SaveFailed(hostErrors))
  }

  /** A Shipment project with the status field, holding shipment 1 already complete. */
  const ShipmentProject := ProjectMeta("s", [FieldMeta("shipment_status", "shipment", "select", "dropdown", "Status", "", "")],
                                       "shipment", "record_id")

  function OneCompleteShipment(): Tables {
    Tables(map[Cell("s", "1", "shipment_status") := "complete"], map["s" := ["1"]])
  }

  /**
   * As written, completing an already complete shipment is not refused: the status guard
   * reads nothing and the write goes ahead, where the guard on the row's own status refuses it.
   */
  lemma CompleteTwiceAsWritten(eventId: string)
    requires eventId != "shipment_status"
    ensures StatusUpdateAsWritten(OneCompleteShipment(), ShipmentProject, eventId, "1", "complete", []).1 == Updated
    ensures StatusUpdate(OneCompleteShipment(), ShipmentProject, "1", "complete", []).1 ==
      Aborted([AlreadyAtStatus("complete")])
  {
    var t := OneCompleteShipment();
    var sh := ShipmentProject;
    assert IsNumericStr("1") by {
      assert IsCanonicalDecimal("1");
      CanonicalIsNumeric("1");
    }
    assert sh.Names() == ["shipment_status"];
    ShipmentFound(t, sh, "1");
    assert RecordExists(t, sh.id, "1");
    var row := ShipmentOf(t, sh, "1");
    assert row == RowOf(t, sh.id, "1", sh.Names());
    GetRowOf(t, sh.id, "1", sh.Names(), "shipment_status");
    assert Get(row, "shipment_status") == Some("complete");
    assert eventId !in KeysOf(row);
    assert ShipmentOf(t, sh, "1") != [];
  }

  /** A status update writes only the shipment's status, and only when nothing refuses it. */
  lemma StatusUpdateEffect(t: Tables, sh: ProjectMeta, id: string, status: string, hostErrors: seq<string>,
                           p: string, r: string, f: string)
    ensures var u := StatusUpdate(t, sh, id, status, hostErrors);
      && (u.1 == Updated <==> StatusGuard(t, sh, id, status).None? && hostErrors == [])
      && (u.1 == Updated ==>
            Value(u.0, p, r, f) == if p == sh.id && r == id && f == "shipment_status" then status else Value(t, p, r, f))
      && (u.1 != Updated ==> u.0 == t)
  {
    WriteField(t, sh.id, FieldData(id, "shipment_status", status), "shipment_status", status, p, r, f);
  }

  /** The save data that sets `box_status` on each of the boxes. */
  function BoxStatusData(boxes: seq<string>, status: string): (data: Assoc<Row>)
    ensures KeysOf(data) == boxes
    ensures forall i :: 0 <= i < |data| ==> data[i].1 == [("box_status", status)]
  {
    seq(|boxes|, i requires 0 <= i < |boxes| => (boxes[i], [("box_status", status)]))
  }

  /** Distinct boxes give distinct keys. */
  lemma BoxStatusDataDistinct(boxes: seq<string>, status: string)
    requires Distinct(boxes)
    ensures DistinctKeys(BoxStatusData(boxes, status))
  {
    var data := BoxStatusData(boxes, status);
    forall i, j | 0 <= i < j < |data| ensures data[i].0 != data[j].0 {
      assert data[i].0 == boxes[i] && data[j].0 == boxes[j];
    }
  }

  /** The boxes a `[shipment_record_id] = id` filter selects: none for a non-numeric id. */
  function ShipmentBoxRecords(t: Tables, box: ProjectMeta, id: string): (rs: seq<string>)
    ensures Distinct(rs)
    ensures !IsNumericStr(id) ==> rs == []
    ensures IsNumericStr(id) ==>
      forall x :: x in rs <==> RecordExists(t, box.id, x) && Value(t, box.id, x, "shipment_record_id") == id
  {
    if !IsNumericStr(id) then [] else Where(t, box.id, "shipment_record_id", id)
  }

  /** `updateBoxStatusByShipmentId`, as a function of the tables. */
  function BoxStatusUpdate(t: Tables, box: ProjectMeta, id: string, status: string, hostErrors: seq<string>): (Tables, StatusResult) {
    if !IsNumericStr(id) then (t, Aborted([InvalidCompleteShipment]))
    else if hostErrors == [] then (Write(t, box.id, BoxStatusData(ShipmentBoxRecords(t, box, id), status)), Updated)
    else (t, SaveFailed(hostErrors))
  }

  /** A box status update sets `box_status` on every box of the shipment and writes nothing else. */
  lemma BoxStatusUpdateEffect(t: Tables, box: ProjectMeta, id: string, status: string, hostErrors: seq<string>,
                              p: string, r: string, f: string)
    ensures var u := BoxStatusUpdate(t, box, id, status, hostErrors);
      && (u.1 == Updated <==> IsNumericStr(id) && hostErrors == [])
      && (u.1 == Updated ==>
            Value(u.0, p, r, f) ==
              if p == box.id && r in ShipmentBoxRecords(t, box, id) && f == "box_status" then status else Value(t, p, r, f))
      && (u.1 != Updated ==> u.0 == t)
  {
    var data := BoxStatusData(ShipmentBoxRecords(t, box, id), status);
    WriteField(t, box.id, data, "box_status", status, p, r, f);
  }

  // ---------------------------------------------------------------- the store-changing steps

  method UpdateShipmentStatus(store: Store, sh: ProjectMeta, id: string, status: string, hostErrors: seq<string>)
    returns (r: StatusResult)
    modifies store
    ensures (store.tables, r) == StatusUpdate(old(store.tables), sh, id, status, hostErrors)
  {
    var guard := StatusGuard(store.tables, sh, id, status);
    if guard.Some? {
      return Aborted([guard.value]);
    }
    var errors := store.SaveData(sh.id, FieldData(id, "shipment_status", status), hostErrors);
    if errors != [] {
      r := SaveFailed(errors);
    } else {
      r := Updated;
    }
  }

  method UpdateBoxStatusByShipmentId(store: Store, box: ProjectMeta, id: string, status: string, hostErrors: seq<string>)
    returns (r: StatusResult)
    modifies store
    ensures (store.tables, r) == BoxStatusUpdate(old(store.tables), box, id, status, hostErrors)
  {
    if !IsNumericStr(id) {
      return Aborted([InvalidCompleteShipment]);
    }
    var boxes := ShipmentBoxRecords(store.tables, box, id);
    ghost var all := BoxStatusData(boxes, status);
    BoxStatusDataDistinct(boxes, status);
    var data := [];
    for i := 0 to |boxes|
      invariant data == all[..i]
      invariant store.tables == old(store.tables)
    {
      assert all[i] == (boxes[i], [("box_status", status)]);
      PutNext(all, i);
      data := Put(data, boxes[i], [("box_status", status)]);
    }
    assert data == all by {
      assert all[..|boxes|] == all;
    }
    var errors := store.SaveData(box.id, data, hostErrors);
    r := if errors != [] then SaveFailed(errors) else Updated;
    assert (store.tables, r) == BoxStatusUpdate(old(store.tables), box, id, status, hostErrors) by {
      assert boxes == ShipmentBoxRecords(old(store.tables), box, id);
    }
  }

  // ---------------------------------------------------------------- request handlers

  /** What a handler sends back: a message, or the errors that end the request. */
  datatype Reply = Sent(message: string) | Abort(errors: seq<string>)

  const SaveSuccessful := "Save successful"

  /**
   * `handleCompleteShipment`: the shipment becomes "complete", then its boxes "closed"; when
   * the box step fails the shipment is set back to "incomplete" and the box errors are sent.
   * `shipmentErrors`, `boxErrors` and `revertErrors` are what the host reports for each save.
   */
  function CompleteShipment(t: Tables, sh: ProjectMeta, box: ProjectMeta, id: string,
                            shipmentErrors: seq<string>, boxErrors: seq<string>, revertErrors: seq<string>): (c: (Tables, Reply))
    // success needs a numeric id and both saves accepted
    ensures c.1.Sent? ==> c.1 == Sent(SaveSuccessful) && IsNumericStr(id) && shipmentErrors == [] && boxErrors == []
    // a request refused before the shipment is saved changes nothing
    ensures !IsNumericStr(id) ==> c == (t, Abort([InvalidCompleteShipment]))
    ensures shipmentErrors != [] ==> c.0 == t && c.1.Abort?
  {
    if !IsNumericStr(id) then (t, Abort([InvalidCompleteShipment]))
    else
      var s := StatusUpdate(t, sh, id, "complete", shipmentErrors);
      match s.1
      case Aborted(e) => (s.0, Abort(e))
      case SaveFailed(e) => (s.0, Abort(e))
      case Updated =>
        var b := BoxStatusUpdate(s.0, box, id, "closed", boxErrors);
        match b.1
        case Updated => (b.0, Sent(SaveSuccessful))
        case Aborted(e) => (b.0, Abort(e))
        case SaveFailed(e) =>
          var revert := StatusUpdate(b.0, sh, id, "incomplete", revertErrors);
          match revert.1
          case Aborted(e') => (revert.0, Abort(e'))
          case _ => (revert.0, Abort(e))
  }

  method HandleCompleteShipment(store: Store, sh: ProjectMeta, box: ProjectMeta, id: string,
                                shipmentErrors: seq<string>, boxErrors: seq<string>, revertErrors: seq<string>)
    returns (reply: Reply)
    modifies store
    ensures (store.tables, reply) == CompleteShipment(old(store.tables), sh, box, id, shipmentErrors, boxErrors, revertErrors)
  {
    if !IsNumericStr(id) {
      return Abort([InvalidCompleteShipment]);
    }
    var s := UpdateShipmentStatus(store, sh, id, "complete", shipmentErrors);
    if s != Updated {
      return Abort(s.errors);
    }
    var b := UpdateBoxStatusByShipmentId(store, box, id, "closed", boxErrors);
    match b
    case Updated =>
      reply := Sent(SaveSuccessful);
    case Aborted(e) =>
      reply := Abort(e);
    case SaveFailed(e) =>
      var revert := UpdateShipmentStatus(store, sh, id, "incomplete", revertErrors);
      if revert.Aborted? {
        return Abort(revert.errors);
      }
      reply := Abort(e);
  }

  /**
   * A completed shipment is "complete" and every box on it "closed", with nothing else
   * changed. The Box and Shipment projects are different projects.
   */
  lemma CompleteShipmentSucceeds(t: Tables, sh: ProjectMeta, box: ProjectMeta, id: string,
                                 boxErrors: seq<string>, revertErrors: seq<string>, p: string, r: string, f: string)
    requires sh.id != box.id
    requires StatusGuard(t, sh, id, "complete").None?
    ensures var c := CompleteShipment(t, sh, box, id, [], boxErrors, revertErrors);
      && (c.1 == Sent(SaveSuccessful) <==> boxErrors == [])
      && (c.1 == Sent(SaveSuccessful) ==>
            Value(c.0, p, r, f) ==
              if p == sh.id && r == id && f == "shipment_status" then "complete"
              else if p == box.id && r in ShipmentBoxRecords(t, box, id) && f == "box_status" then "closed"
              else Value(t, p, r, f))
  {
    var s := StatusUpdate(t, sh, id, "complete", []);
    StatusUpdateEffect(t, sh, id, "complete", [], p, r, f);
    BoxStatusUpdateEffect(s.0, box, id, "closed", boxErrors, p, r, f);
    ShipmentWriteKeepsBoxes(t, sh, box, id, "complete");
  }

  /** Writing a shipment's status does not change which boxes are on the shipment. */
  lemma ShipmentWriteKeepsBoxes(t: Tables, sh: ProjectMeta, box: ProjectMeta, id: string, status: string)
    requires sh.id != box.id
    ensures ShipmentBoxRecords(Write(t, sh.id, FieldData(id, "shipment_status", status)), box, id) == ShipmentBoxRecords(t, box, id)
  {
    var data := FieldData(id, "shipment_status", status);
    var t' := Write(t, sh.id, data);
    WriteListing(t, sh.id, data, box.id);
    forall x
      ensures Value(t', box.id, x, "shipment_record_id") == Value(t, box.id, x, "shipment_record_id")
    {
      WriteField(t, sh.id, data, "shipment_status", status, box.id, x, "shipment_record_id");
    }
    WhereInSame(t', t, box.id, Listed(t, box.id), "shipment_record_id", id);
  }

  /**
   * When the box step fails after the shipment was completed, the shipment ends up
   * "incomplete" (whatever its status was before) and no box is changed.
   */
  lemma CompleteShipmentReverts(t: Tables, sh: ProjectMeta, box: ProjectMeta, id: string,
                                boxErrors: seq<string>, p: string, r: string, f: string)
    requires StatusGuard(t, sh, id, "complete").None?
    requires boxErrors != []
    ensures var c := CompleteShipment(t, sh, box, id, [], boxErrors, []);
      && c.1 == Abort(boxErrors)
      && Value(c.0, p, r, f) == if p == sh.id && r == id && f == "shipment_status" then "incomplete" else Value(t, p, r, f)
  {
    var s := StatusUpdate(t, sh, id, "complete", []);
    StatusUpdateEffect(t, sh, id, "complete", [], p, r, f);
    RevertAllowed(t, sh, id);
    StatusUpdateEffect(s.0, sh, id, "incomplete", [], p, r, f);
  }

  /** Once a shipment was completed, setting it back to "incomplete" is not refused. */
  lemma RevertAllowed(t: Tables, sh: ProjectMeta, id: string)
    requires StatusGuard(t, sh, id, "complete").None?
    ensures StatusGuard(StatusUpdate(t, sh, id, "complete", []).0, sh, id, "incomplete").None?
  {
    StatusWritten(t, sh, id, "complete");
  }

  /** After a status update the shipment is still found, and its status reads back as written. */
  lemma StatusWritten(t: Tables, sh: ProjectMeta, id: string, status: string)
    requires StatusGuard(t, sh, id, status).None?
    ensures var t' := StatusUpdate(t, sh, id, status, []).0;
      && ShipmentOf(t', sh, id) != []
      && Get(ShipmentOf(t', sh, id), "shipment_status") == if "shipment_status" in sh.Names() then Some(status) else None
  {
    var t' := StatusUpdate(t, sh, id, status, []).0;
    ShipmentFound(t, sh, id);
    WriteField(t, sh.id, FieldData(id, "shipment_status", status), "shipment_status", status, sh.id, id, "shipment_status");
    ShipmentFound(t', sh, id);
    if "shipment_status" in sh.Names() {
      GetRowOf(t', sh.id, id, sh.Names(), "shipment_status");
    }
  }

  /** The error that ends a `handleUpdateBoxShipment` request before anything is saved, if any. */
  function BoxShipmentGuard(t: Tables, box: ProjectMeta, sh: ProjectMeta, boxId: string, shipmentId: string): Option<string> {
    if !IsNumericStr(boxId) then Some(InvalidLinkBox)
    else if !EmptyStr(shipmentId) && !IsNumericStr(shipmentId) then
      Some(InvalidLinkShipment)
    else
      var plate := BoxOf(t, box, boxId);
      if plate.None? || plate.value == [] then Some(NoLinkBox(boxId))
      else if !EmptyStr(shipmentId) && ShipmentOf(t, sh, shipmentId) == [] then
        Some(NoLinkShipment(shipmentId))
      else None
  }

  /**
   * `handleUpdateBoxShipment`: links a box to a shipment (an empty shipment id clears the
   * link); a non-numeric box id, a non-empty non-numeric shipment id, a missing box or a
   * missing given shipment are refused before anything is saved. The box is looked up with
   * `getBox`; the source calls a `getPlate` left over from renaming Plate to Box, which the module does not define.
   */
  function UpdateBoxShipment(t: Tables, box: ProjectMeta, sh: ProjectMeta, boxId: string, shipmentId: string,
                             hostErrors: seq<string>): (u: (Tables, Reply))
    // a refused link saves nothing
    ensures u.1.Abort? ==> u.0 == t
    ensures u.1.Sent? ==> u.1 == Sent(SaveSuccessful) && IsNumericStr(boxId) && hostErrors == []
  {
    match BoxShipmentGuard(t, box, sh, boxId, shipmentId)
    case Some(e) => (t, Abort([e]))
    case None =>
      if hostErrors != [] then (t, Abort(hostErrors))
      else (Write(t, box.id, FieldData(boxId, "shipment_record_id", shipmentId)), Sent(SaveSuccessful))
  }

  /** The validation steps of `handleUpdateBoxShipment`, in the order the handler takes them. */
  method CheckBoxShipment(t: Tables, box: ProjectMeta, sh: ProjectMeta, boxId: string, shipmentId: string)
    returns (error: Option<string>)
    ensures error == BoxShipmentGuard(t, box, sh, boxId, shipmentId)
  {
    if !IsNumericStr(boxId) {
      return Some(InvalidLinkBox);
    }
    if !EmptyStr(shipmentId) && !IsNumericStr(shipmentId) {
      return Some(InvalidLinkShipment);
    }
    var plate := GetBox(t, box, boxId);
    if plate.None? || plate.value == [] {
      return Some(NoLinkBox(boxId));
    }
    if !EmptyStr(shipmentId) {
      var shipment := ShipmentOf(t, sh, shipmentId);
      if shipment == [] {
        return Some(NoLinkShipment(shipmentId));
      }
    }
    error := None;
  }

  method HandleUpdateBoxShipment(store: Store, box: ProjectMeta, sh: ProjectMeta, boxId: string, shipmentId: string,
                                 hostErrors: seq<string>) returns (reply: Reply)
    modifies store
    ensures (store.tables, reply) == UpdateBoxShipment(old(store.tables), box, sh, boxId, shipmentId, hostErrors)
  {
    var error := CheckBoxShipment(store.tables, box, sh, boxId, shipmentId);
    if error.Some? {
      return Abort([error.value]);
    }
    var errors := store.SaveData(box.id, FieldData(boxId, "shipment_record_id", shipmentId), hostErrors);
    if errors != [] {
      return Abort(errors);
    }
    reply := Sent(SaveSuccessful);
  }

  /**
   * The link is saved exactly when the box exists with data, the shipment id is empty or
   * names an existing shipment, and the host accepts; then only the box's
   * `shipment_record_id` changes (an empty id erases it).
   */
  lemma UpdateBoxShipmentEffect(t: Tables, box: ProjectMeta, sh: ProjectMeta, boxId: string, shipmentId: string,
                                hostErrors: seq<string>, p: string, r: string, f: string)
    ensures var u := UpdateBoxShipment(t, box, sh, boxId, shipmentId, hostErrors);
      && (u.1 == Sent(SaveSuccessful) <==>
            && IsNumericStr(boxId) && RecordExists(t, box.id, boxId) && box.fields != []
            && (EmptyStr(shipmentId) || (IsNumericStr(shipmentId) && RecordExists(t, sh.id, shipmentId) && sh.fields != []))
            && hostErrors == [])
      && (u.1 == Sent(SaveSuccessful) ==>
            Value(u.0, p, r, f) == if p == box.id && r == boxId && f == "shipment_record_id" then shipmentId else Value(t, p, r, f))
      && (u.1 != Sent(SaveSuccessful) ==> u.0 == t)
  {
    BoxShipmentGuardRule(t, box, sh, boxId, shipmentId);
    WriteField(t, box.id, FieldData(boxId, "shipment_record_id", shipmentId), "shipment_record_id", shipmentId, p, r, f);
  }

  /** Nothing refuses the link exactly when the box exists with data and the shipment id is empty or found. */
  lemma BoxShipmentGuardRule(t: Tables, box: ProjectMeta, sh: ProjectMeta, boxId: string, shipmentId: string)
    ensures BoxShipmentGuard(t, box, sh, boxId, shipmentId).None? <==>
      && IsNumericStr(boxId) && RecordExists(t, box.id, boxId) && box.fields != []
      && (EmptyStr(shipmentId) || (IsNumericStr(shipmentId) && RecordExists(t, sh.id, shipmentId) && sh.fields != []))
  {
    BoxFound(t, box, boxId);
    if BoxOf(t, box, boxId).Some? {
      assert |BoxOf(t, box, boxId).value| == |box.Names()| == |box.fields|;
    }
    ShipmentFound(t, sh, shipmentId);
  }

  /**
   * `handleUpdateBoxShipment` as written reads the box with `getPlate`, which the module does
   * not define. When the host resolves no such method, the call fails once the two ids pass
   * their checks: its error (`callError`) ends the request, and nothing is saved.
   */
  function UpdateBoxShipmentAsWritten(t: Tables, boxId: string, shipmentId: string, callError: string): (Tables, Reply) {
    if !IsNumericStr(boxId) then (t, Abort([InvalidLinkBox]))
    else if !EmptyStr(shipmentId) && !IsNumericStr(shipmentId) then (t, Abort([InvalidLinkShipment]))
    else (t, Abort([callError]))
  }

  /**
   * As written no link is ever saved, not even for an existing box and an empty shipment id,
   * for which the handler reading the box with `getBox` saves it.
   */
  lemma LinkNeverSavedAsWritten(t: Tables, box: ProjectMeta, sh: ProjectMeta, boxId: string, shipmentId: string,
                                callError: string)
    ensures var u := UpdateBoxShipmentAsWritten(t, boxId, shipmentId, callError);
      u.0 == t && u.1.Abort?
    ensures IsNumericStr(boxId) && RecordExists(t, box.id, boxId) && box.fields != [] && EmptyStr(shipmentId) ==>
      UpdateBoxShipment(t, box, sh, boxId, shipmentId, []).1 == Sent(SaveSuccessful)
  {
    BoxShipmentGuardRule(t, box, sh, boxId, shipmentId);
  }
}
