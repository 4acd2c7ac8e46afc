/**
 * The reporting table: one row per specimen, joining the specimen's report fields with
 * its box's and its box's shipment's, as `handleGetReportData` assembles it.
 */
module ReportUtils {
  import opened Wrappers
  import opened Php
  import opened RecordStore
  import opened RedcapUtils
  import opened ConfigUtils
  import ShipmentUtils
  import SpecimenUtils
  import PlateUtils

  /** A row of display values, keyed by field name. */
  type Shown = Assoc<FieldValue>

  /** The box field the report copies raw into each box row. */
  const ShipmentRef := "shipment_record_id"

  // ---------------------------------------------------------------- the fieldset

  /** Whether a field's `reporting-table` flag is truthy; a missing flag reads as null. */
  predicate OnReport(fc: FieldConfig) {
    ReportingTable in fc.flags && !Empty(fc.flags[ReportingTable])
  }

  /** `$metadata[$project][$fk]["field_label"]`: null when the metadata lacks the field. */
  function LabelIn(meta: Assoc<FieldMetadata>, k: string): PhpVal {
    match Get(meta, k)
    case Some(m) => Str(m.field.fieldLabel)
    case None => Null
  }

  /** One project's report columns: each flagged field with its label, in configuration order. */
  function ReportColumns(configs: Assoc<FieldConfig>, meta: Assoc<FieldMetadata>): Assoc<PhpVal>
    decreases |configs|
  {
    if |configs| == 0 then []
    else
      var last := configs[|configs| - 1];
      var cols := ReportColumns(configs[..|configs| - 1], meta);
      if OnReport(last.1) then Put(cols, last.0, LabelIn(meta, last.0)) else cols
  }

  /** Whether some configuration entry for field `k` is flagged for the report. */
  predicate Flagged(configs: Assoc<FieldConfig>, k: string) {
    exists i :: 0 <= i < |configs| && configs[i].0 == k && OnReport(configs[i].1)
  }

  lemma FlaggedStep(configs: Assoc<FieldConfig>, k: string)
    requires |configs| > 0
    ensures Flagged(configs, k) <==>
      Flagged(configs[..|configs| - 1], k) || (configs[|configs| - 1].0 == k && OnReport(configs[|configs| - 1].1))
  {
    var init := configs[..|configs| - 1];
    if Flagged(configs, k) {
      var i :| 0 <= i < |configs| && configs[i].0 == k && OnReport(configs[i].1);
      if i < |init| {
        assert init[i] == configs[i];
      }
    }
    if Flagged(init, k) {
      var i :| 0 <= i < |init| && init[i].0 == k && OnReport(init[i].1);
      assert configs[i] == init[i];
    }
  }

  /** A field is a report column exactly when it is flagged, and its column carries its label. */
  lemma {:induction false} ReportColumnsSelect(configs: Assoc<FieldConfig>, meta: Assoc<FieldMetadata>, k: string)
    ensures DistinctKeys(ReportColumns(configs, meta))
    ensures Get(ReportColumns(configs, meta), k) == if Flagged(configs, k) then Some(LabelIn(meta, k)) else None
    decreases |configs|
  {
    if |configs| > 0 {
      var init := configs[..|configs| - 1];
      var last := configs[|configs| - 1];
      ReportColumnsSelect(init, meta, k);
      FlaggedStep(configs, k);
      var cols := ReportColumns(init, meta);
      if OnReport(last.1) {
        PutKeepsDistinct(cols, last.0, LabelIn(meta, last.0));
        if k != last.0 {
          GetAfterPut(cols, last.0, LabelIn(meta, last.0), k);
        }
      }
    }
  }

  /** The field-selection loop of one project. */
  method SelectColumns(configs: Assoc<FieldConfig>, meta: Assoc<FieldMetadata>) returns (cols: Assoc<PhpVal>)
    ensures cols == ReportColumns(configs, meta)
  {
    cols := [];
    for i := 0 to |configs|
      invariant cols == ReportColumns(configs[..i], meta)
    {
      assert configs[..i + 1][..i] == configs[..i];
      if OnReport(configs[i].1) {
        cols := Put(cols, configs[i].0, LabelIn(meta, configs[i].0));
      }
    }
    assert configs[..|configs|] == configs;
  }

  /** The fieldset of the response: each project's report columns. */
  function Columns(view: ModuleConfigView): ByProject<Assoc<PhpVal>> {
    ByProject(ReportColumns(view.state.fields.box, view.metadata.box),
              ReportColumns(view.state.fields.specimen, view.metadata.specimen),
              ReportColumns(view.state.fields.shipment, view.metadata.shipment))
  }

  // ---------------------------------------------------------------- rows of display values

  /** `$out[$fn] = value($fn)` for each name in turn. */
  function Tabulate<V>(names: seq<string>, value: string -> V): Assoc<V>
    decreases |names|
  {
    if |names| == 0 then []
    else Put(Tabulate(names[..|names| - 1], value), names[|names| - 1], value(names[|names| - 1]))
  }

  /** A tabulated row holds exactly the named fields, each with its value. */
  lemma {:induction false} TabulateGet<V>(names: seq<string>, value: string -> V, k: string)
    ensures DistinctKeys(Tabulate(names, value))
    ensures Get(Tabulate(names, value), k) == if k in names then Some(value(k)) else None
    decreases |names|
  {
    if |names| > 0 {
      var init := names[..|names| - 1];
      var n := names[|names| - 1];
      assert names == init + [n];
      TabulateGet(init, value, k);
      PutKeepsDistinct(Tabulate(init, value), n, value(n));
      if k != n {
        GetAfterPut(Tabulate(init, value), n, value(n), k);
      }
    }
  }

  /** With distinct names, a tabulated row has its fields in the order of the names. */
  lemma {:induction false} TabulateKeys<V>(names: seq<string>, value: string -> V)
    requires Distinct(names)
    ensures KeysOf(Tabulate(names, value)) == names
    decreases |names|
  {
    if |names| > 0 {
      var init := names[..|names| - 1];
      var n := names[|names| - 1];
      assert names == init + [n];
      assert forall i :: 0 <= i < |init| ==> init[i] == names[i];
      TabulateKeys(init, value);
    }
  }

  /** Two value maps that agree on the names tabulate the same row. */
  lemma {:induction false} TabulateSame<V>(names: seq<string>, f: string -> V, g: string -> V)
    requires forall n :: n in names ==> f(n) == g(n)
    ensures Tabulate(names, f) == Tabulate(names, g)
    decreases |names|
  {
    if |names| > 0 {
      var init := names[..|names| - 1];
      assert forall n :: n in init ==> n in names;
      TabulateSame(init, f, g);
    }
  }

  /** The loop `foreach ($fields as $fn => $fv) $out[$fn] = value($fn)`. */
  method Tabulated<V>(names: seq<string>, value: string -> V) returns (out: Assoc<V>)
    ensures out == Tabulate(names, value)
  {
    out := [];
    for i := 0 to |names|
      invariant out == Tabulate(names[..i], value)
    {
      assert names[..i + 1][..i] == names[..i];
      out := Put(out, names[i], value(names[i]));
    }
    assert names[..|names|] == names;
  }

  /** `$raw[$fn]` as the display mapping receives it: null when the row lacks the field. */
  function RawValue(raw: Row, f: string): FieldValue {
    match Get(raw, f)
    case Some(v) => Text(v)
    case None => Missing
  }

  /** `getFieldDisplayValue($project, $fn, $raw[$fn])["value"]`, field by field. */
  function Displayed(proj: ProjectMeta, raw: Row, dates: DateFunctions): string -> FieldValue {
    f => FieldDisplayValue(proj, f, RawValue(raw, f), dates).value
  }

  /** `$src[$fn]`, field by field: null when `src` lacks the field. */
  function Picked(src: Shown): string -> FieldValue {
    f => Get(src, f).GetOr(Missing)
  }

  /** Picking the named fields back out of a row tabulated over the same names gives that row. */
  lemma PickTabulated(names: seq<string>, value: string -> FieldValue)
    ensures Tabulate(names, Picked(Tabulate(names, value))) == Tabulate(names, value)
  {
    forall n | n in names
      ensures Picked(Tabulate(names, value))(n) == value(n)
    {
      TabulateGet(names, value, n);
    }
    TabulateSame(names, Picked(Tabulate(names, value)), value);
  }

  // ---------------------------------------------------------------- specimens by box

  /** The fields the specimen query reads: `array_keys($specimen_fields + ["box_record_id" => true])`. */
  function QueryFields(names: seq<string>): (fs: seq<string>)
    ensures forall n :: n in fs <==> n in names || n == "box_record_id"
  {
    if "box_record_id" in names then names else names + ["box_record_id"]
  }

  /** `$box_specimens[$box][$record] = $row`. */
  function FileShown(groups: Assoc<Assoc<Shown>>, b: string, record: string, row: Shown): Assoc<Assoc<Shown>> {
    Put(groups, b, Put(Get(groups, b).GetOr([]), record, row))
  }

  /** Each specimen's display row, filed under the box its raw `box_record_id` names. */
  function SpecimenGroups(sp: ProjectMeta, names: seq<string>, data: Assoc<Row>, dates: DateFunctions): Assoc<Assoc<Shown>>
    decreases |data|
  {
    if |data| == 0 then []
    else
      var last := data[|data| - 1];
      FileShown(SpecimenGroups(sp, names, data[..|data| - 1], dates), SpecimenUtils.BoxKey(last.1), last.0,
                Tabulate(names, Displayed(sp, last.1, dates)))
  }

  /** The row filed under box `b` as record `r`, if any. */
  function Filed(groups: Assoc<Assoc<Shown>>, b: string, r: string): Option<Shown> {
    match Get(groups, b)
    case None => None
    case Some(inner) => Get(inner, r)
  }

  lemma FileShownGet(groups: Assoc<Assoc<Shown>>, b0: string, record: string, row: Shown, b: string, r: string)
    ensures Filed(FileShown(groups, b0, record, row), b, r) ==
      if b == b0 && r == record then Some(row) else Filed(groups, b, r)
  {
    var inner := Get(groups, b0).GetOr([]);
    if b == b0 {
      if r != record {
        GetAfterPut(inner, record, row, r);
      }
    } else {
      GetAfterPut(groups, b0, Put(inner, record, row), b);
    }
  }

  /** A key that is not the last one of `data` belongs to its prefix. */
  lemma LastIsNew<V>(data: Assoc<V>)
    requires |data| > 0 && DistinctKeys(data)
    ensures DistinctKeys(data[..|data| - 1])
    ensures data[|data| - 1].0 !in KeysOf(data[..|data| - 1])
    ensures data == data[..|data| - 1] + [data[|data| - 1]]
  {
    var init := data[..|data| - 1];
    forall i | 0 <= i < |init|
      ensures KeysOf(init)[i] != data[|data| - 1].0
    {
      assert init[i] == data[i];
    }
  }

  /** Each specimen is filed under the box its row names, with its display row, and nowhere else. */
  lemma {:induction false} SpecimenGroupsGet(sp: ProjectMeta, names: seq<string>, data: Assoc<Row>,
                                             dates: DateFunctions, b: string, r: string)
    requires DistinctKeys(data)
    ensures Filed(SpecimenGroups(sp, names, data, dates), b, r) ==
      match Get(data, r)
      case Some(raw) => if SpecimenUtils.BoxKey(raw) == b then Some(Tabulate(names, Displayed(sp, raw, dates))) else None
      case None => None
    decreases |data|
  {
    if |data| > 0 {
      var init := data[..|data| - 1];
      var last := data[|data| - 1];
      LastIsNew(data);
      SpecimenGroupsGet(sp, names, init, dates, b, r);
      FileShownGet(SpecimenGroups(sp, names, init, dates), SpecimenUtils.BoxKey(last.1), last.0,
                   Tabulate(names, Displayed(sp, last.1, dates)), b, r);
      GetAppend(init, last.0, last.1, r);
    }
  }

  /** The number of specimens filed across all boxes. */
  function Count(groups: Assoc<Assoc<Shown>>): nat
    decreases |groups|
  {
    if |groups| == 0 then 0 else Count(groups[..|groups| - 1]) + |groups[|groups| - 1].1|
  }

  lemma {:induction false} CountUpdate(groups: Assoc<Assoc<Shown>>, p: nat, x: (string, Assoc<Shown>))
    requires p < |groups|
    ensures Count(groups[p := x]) + |groups[p].1| == Count(groups) + |x.1|
    decreases |groups|
  {
    var n := |groups|;
    var g := groups[p := x];
    if p == n - 1 {
      assert g[..n - 1] == groups[..n - 1];
    } else {
      assert g[..n - 1] == groups[..n - 1][p := x];
      CountUpdate(groups[..n - 1], p, x);
    }
  }

  /** Putting a box's specimens replaces what was filed under it before. */
  lemma CountPut(groups: Assoc<Assoc<Shown>>, b: string, v: Assoc<Shown>)
    ensures Count(Put(groups, b, v)) + |Get(groups, b).GetOr([])| == Count(groups) + |v|
  {
    match KeyIndex(groups, b)
    case None =>
      assert (groups + [(b, v)])[..|groups|] == groups;
    case Some(p) =>
      assert Put(groups, b, v) == groups[p := (b, v)];
      assert Get(groups, b) == Some(groups[p].1);
      CountUpdate(groups, p, (b, v));
  }

  /** Grouping files every specimen exactly once. */
  lemma {:induction false} SpecimenGroupsCount(sp: ProjectMeta, names: seq<string>, data: Assoc<Row>, dates: DateFunctions)
    requires DistinctKeys(data)
    ensures Count(SpecimenGroups(sp, names, data, dates)) == |data|
    decreases |data|
  {
    if |data| > 0 {
      var init := data[..|data| - 1];
      var last := data[|data| - 1];
      var groups := SpecimenGroups(sp, names, init, dates);
      var b := SpecimenUtils.BoxKey(last.1);
      var inner := Get(groups, b).GetOr([]);
      LastIsNew(data);
      SpecimenGroupsCount(sp, names, init, dates);
      SpecimenGroupsGet(sp, names, init, dates, b, last.0);
      assert last.0 !in KeysOf(inner);
      CountPut(groups, b, Put(inner, last.0, Tabulate(names, Displayed(sp, last.1, dates))));
    }
  }

  lemma SpecimenGroupsStep(sp: ProjectMeta, names: seq<string>, data: Assoc<Row>, dates: DateFunctions, i: nat)
    requires i < |data|
    ensures SpecimenGroups(sp, names, data[..i + 1], dates) ==
      FileShown(SpecimenGroups(sp, names, data[..i], dates), SpecimenUtils.BoxKey(data[i].1), data[i].0,
                Tabulate(names, Displayed(sp, data[i].1, dates)))
  {
    assert data[..i + 1][..i] == data[..i];
  }

  /** The specimen-grouping loop. */
  method GroupSpecimens(sp: ProjectMeta, names: seq<string>, data: Assoc<Row>, dates: DateFunctions)
    returns (groups: Assoc<Assoc<Shown>>)
    ensures groups == SpecimenGroups(sp, names, data, dates)
  {
    groups := [];
    for i := 0 to |data|
      invariant groups == SpecimenGroups(sp, names, data[..i], dates)
    {
      SpecimenGroupsStep(sp, names, data, dates, i);
      var row := Tabulated(names, Displayed(sp, data[i].1, dates));
      var b := SpecimenUtils.BoxKey(data[i].1);
      var inner := Get(groups, b).GetOr([]);
      groups := Put(groups, b, Put(inner, data[i].0, row));
    }
    assert data[..|data|] == data;
  }

  // ---------------------------------------------------------------- boxes and shipments

  /** One box's report row: its report fields' display values, then its raw `shipment_record_id`. */
  function BoxRow(box: ProjectMeta, names: seq<string>, raw: Row, dates: DateFunctions): Shown {
    Put(Tabulate(names, Displayed(box, raw, dates)), ShipmentRef, RawValue(raw, ShipmentRef))
  }

  /** `$boxes[$box_id] = $row` for each box the query returns. */
  function BoxRows(box: ProjectMeta, names: seq<string>, data: Assoc<Row>, dates: DateFunctions): Assoc<Shown>
    decreases |data|
  {
    if |data| == 0 then []
    else
      var last := data[|data| - 1];
      Put(BoxRows(box, names, data[..|data| - 1], dates), last.0, BoxRow(box, names, last.1, dates))
  }

  /** Every box the query returns has its row, and no other box has one. */
  lemma {:induction false} BoxRowsGet(box: ProjectMeta, names: seq<string>, data: Assoc<Row>, dates: DateFunctions, b: string)
    requires DistinctKeys(data)
    ensures Get(BoxRows(box, names, data, dates), b) ==
      match Get(data, b)
      case Some(raw) => Some(BoxRow(box, names, raw, dates))
      case None => None
    decreases |data|
  {
    if |data| > 0 {
      var init := data[..|data| - 1];
      var last := data[|data| - 1];
      LastIsNew(data);
      BoxRowsGet(box, names, init, dates, b);
      GetAppend(init, last.0, last.1, b);
      if b != last.0 {
        GetAfterPut(BoxRows(box, names, init, dates), last.0, BoxRow(box, names, last.1, dates), b);
      }
    }
  }

  lemma BoxRowsStep(box: ProjectMeta, names: seq<string>, data: Assoc<Row>, dates: DateFunctions, i: nat)
    requires i < |data|
    ensures BoxRows(box, names, data[..i + 1], dates) ==
      Put(BoxRows(box, names, data[..i], dates), data[i].0, BoxRow(box, names, data[i].1, dates))
  {
    assert data[..i + 1][..i] == data[..i];
  }

  /** The box-row loop. */
  method CollectBoxRows(box: ProjectMeta, names: seq<string>, data: Assoc<Row>, dates: DateFunctions)
    returns (boxes: Assoc<Shown>)
    ensures boxes == BoxRows(box, names, data, dates)
  {
    boxes := [];
    for i := 0 to |data|
      invariant boxes == BoxRows(box, names, data[..i], dates)
    {
      BoxRowsStep(box, names, data, dates, i);
      var row := Tabulated(names, Displayed(box, data[i].1, dates));
      row := Put(row, ShipmentRef, RawValue(data[i].1, ShipmentRef));
      boxes := Put(boxes, data[i].0, row);
    }
    assert data[..|data|] == data;
  }

  /** Every shipment's display row, keyed by its record id. */
  function ShipmentsById(t: Tables, sh: ProjectMeta, dates: DateFunctions): (r: Assoc<Shown>)
    // one entry per shipment record, under its own record id rather than its position
    ensures KeysOf(r) == Listed(t, sh.id) && DistinctKeys(r)
  {
    var data := GetData(t, sh.id, [], sh.Names());
    seq(|data|, i requires 0 <= i < |data| => (data[i].0, ShipmentUtils.DisplayRow(sh, data[i].1, dates)))
  }

  /** The shipment a stored box names: its display row, or `[]` when the record does not exist. */
  function StoredShipment(t: Tables, sh: ProjectMeta, ref: FieldValue, dates: DateFunctions): Shown {
    match ref
    case Text(s) => if RecordExists(t, sh.id, s) then ShipmentUtils.DisplayRow(sh, RowOf(t, sh.id, s, sh.Names()), dates) else []
    case _ => []
  }

  /** `$shipments[$box["shipment_record_id"]] ?? []`, over shipments keyed by record id. */
  function ShipmentFor(shipments: Assoc<Shown>, ref: FieldValue): Shown {
    match ref
    case Text(s) => Get(shipments, s).GetOr([])
    case _ => []
  }

  /** Looking a box's shipment up by record id finds exactly the shipment record it names. */
  lemma ShipmentForFinds(t: Tables, sh: ProjectMeta, dates: DateFunctions, ref: FieldValue)
    ensures ShipmentFor(ShipmentsById(t, sh, dates), ref) == StoredShipment(t, sh, ref, dates)
  {
    if ref.Text? {
      var s := ref.s;
      var data := GetData(t, sh.id, [], sh.Names());
      var shipments := ShipmentsById(t, sh, dates);
      GetDataGet(t, sh.id, [], sh.Names(), s);
      assert KeysOf(shipments) == KeysOf(data);
      if RecordExists(t, sh.id, s) {
        var i := KeyIndex(data, s).value;
        assert KeyIndex(shipments, s) == Some(i) by {
          SameIndex(data, shipments, s);
        }
      }
    }
  }

  /** Two arrays with the same keys find a key at the same position. */
  lemma SameIndex<V, W>(a: Assoc<V>, b: Assoc<W>, k: string)
    requires KeysOf(a) == KeysOf(b)
    ensures KeyIndex(a, k) == KeyIndex(b, k)
  {
    if KeyIndex(a, k).Some? {
      assert KeysOf(b)[KeyIndex(a, k).value] == k;
    }
    if KeyIndex(b, k).Some? {
      assert KeysOf(a)[KeyIndex(b, k).value] == k;
    }
  }

  /** A shipment display row holds each of the requested fields' display values. */
  lemma DisplayRowGet(t: Tables, proj: ProjectMeta, r: string, fields: seq<string>, dates: DateFunctions, k: string)
    ensures Get(ShipmentUtils.DisplayRow(proj, RowOf(t, proj.id, r, fields), dates), k) ==
      if k in fields then Some(FieldDisplayValue(proj, k, Text(Value(t, proj.id, r, k)), dates).value) else None
  {
    var row := ShipmentUtils.DisplayRow(proj, RowOf(t, proj.id, r, fields), dates);
    var g := Get(row, k);
    if g.Some? {
      var i :| 0 <= i < |row| && row[i] == (k, g.value);
      assert KeysOf(row)[i] == k;
    }
  }

  /** `$shipments[$box["shipment_record_id"]] ?? []` over the positional list `getShipments` returns. */
  function ShipmentAtAsWritten(list: seq<Shown>, ref: FieldValue): Shown {
    match ref
    case Text(s) =>
      (match DecimalValue(s)
       case Some(n) => if n < |list| then list[n] else []
       case None => [])
    case _ => []
  }

  /** With a single shipment, record "1", a box naming it finds no shipment as written. */
  lemma ShipmentLostAsWritten(t: Tables, sh: ProjectMeta, dates: DateFunctions)
    requires Listed(t, sh.id) == ["1"] && |sh.fields| > 0
    ensures ShipmentAtAsWritten(ShipmentUtils.Shipments(t, sh, dates), Text("1")) == []
    ensures StoredShipment(t, sh, Text("1"), dates) != []
  {
    assert DecimalValue("1") == Some(1);
    var row := ShipmentUtils.DisplayRow(sh, RowOf(t, sh.id, "1", sh.Names()), dates);
    assert "1" in Listed(t, sh.id);
    assert |KeysOf(row)| == |sh.Names()|;
  }

  /** With shipments "1" and "2", a box naming "1" is joined with shipment "2" as written. */
  lemma ShipmentShiftedAsWritten(t: Tables, sh: ProjectMeta, dates: DateFunctions)
    requires Listed(t, sh.id) == ["1", "2"]
    ensures ShipmentAtAsWritten(ShipmentUtils.Shipments(t, sh, dates), Text("1")) ==
      ShipmentUtils.DisplayRow(sh, RowOf(t, sh.id, "2", sh.Names()), dates)
    ensures StoredShipment(t, sh, Text("1"), dates) == ShipmentUtils.DisplayRow(sh, RowOf(t, sh.id, "1", sh.Names()), dates)
  {
    assert DecimalValue("1") == Some(1);
    assert "1" in Listed(t, sh.id);
  }

  // ---------------------------------------------------------------- the join

  /** `array_merge($arr1, $arr2, $arr3)`: each entry put into an empty array in turn. */
  function ReportRow(arr1: Shown, arr2: Shown, arr3: Shown): Shown {
    Merge(Merge(Merge([], arr1), arr2), arr3)
  }

  /** The set of a project's report fields, as `array_intersect_key` compares keys. */
  function KeySet(names: seq<string>): set<string> {
    set n | n in names
  }

  /** One specimen's row: the shipment and box parts its box shares, then its own report fields. */
  function SpecimenRowOf(arr1: Shown, arr2: Shown, names: seq<string>, shown: Shown): Shown {
    ReportRow(arr1, arr2, Tabulate(names, Picked(shown)))
  }

  function SpecimenRow(arr1: Shown, arr2: Shown, names: seq<string>): Shown -> Shown {
    shown => SpecimenRowOf(arr1, arr2, names, shown)
  }

  /** The rows of one box's specimens, in the order they were filed. */
  function BoxSpecimenRows(row: Shown -> Shown, specimens: Assoc<Shown>): (rows: seq<Shown>)
    ensures |rows| == |specimens|
    decreases |specimens|
  {
    if |specimens| == 0 then []
    else BoxSpecimenRows(row, specimens[..|specimens| - 1]) + [row(specimens[|specimens| - 1].1)]
  }

  /** The `j`-th row of a box is its `j`-th specimen's. */
  lemma {:induction false} BoxSpecimenRowsAt(row: Shown -> Shown, specimens: Assoc<Shown>, j: nat)
    requires j < |specimens|
    ensures BoxSpecimenRows(row, specimens)[j] == row(specimens[j].1)
    decreases |specimens|
  {
    var init := specimens[..|specimens| - 1];
    if j < |init| {
      assert init[j] == specimens[j];
      BoxSpecimenRowsAt(row, init, j);
    }
  }

  lemma BoxSpecimenRowsStep(row: Shown -> Shown, specimens: Assoc<Shown>, j: nat)
    requires j < |specimens|
    ensures BoxSpecimenRows(row, specimens[..j + 1]) == BoxSpecimenRows(row, specimens[..j]) + [row(specimens[j].1)]
  {
    assert specimens[..j + 1][..j] == specimens[..j];
  }

  /** The box part of a box's rows: the box row's report fields; empty when the box was not found. */
  function BoxPart(boxes: Assoc<Shown>, b: string, boxNames: seq<string>): Shown {
    IntersectKeys(Get(boxes, b).GetOr([]), KeySet(boxNames))
  }

  /** The shipment part of a box's rows: each shipment report field of the shipment the box names. */
  function ShipmentPart(boxes: Assoc<Shown>, shipments: Assoc<Shown>, b: string, shipNames: seq<string>): Shown {
    var ref := Get(Get(boxes, b).GetOr([]), ShipmentRef).GetOr(Missing);
    Tabulate(shipNames, Picked(ShipmentFor(shipments, ref)))
  }

  /** The rows of the specimens filed under a box, given the boxes and shipments read. */
  function BoxGroupRows(boxes: Assoc<Shown>, shipments: Assoc<Shown>, cols: ByProject<Assoc<PhpVal>>,
                        b: string, specimens: Assoc<Shown>): (rows: seq<Shown>)
    ensures |rows| == |specimens|
  {
    BoxSpecimenRows(SpecimenRow(ShipmentPart(boxes, shipments, b, KeysOf(cols.shipment)),
                                BoxPart(boxes, b, KeysOf(cols.box)), KeysOf(cols.specimen)),
                    specimens)
  }

  function GroupRows(boxes: Assoc<Shown>, shipments: Assoc<Shown>, cols: ByProject<Assoc<PhpVal>>)
    : (string, Assoc<Shown>) -> seq<Shown>
  {
    (b, specimens) => BoxGroupRows(boxes, shipments, cols, b, specimens)
  }

  /** The report rows, box by box in the order the boxes were first met. */
  function Joined(groups: Assoc<Assoc<Shown>>, rowsOf: (string, Assoc<Shown>) -> seq<Shown>): seq<Shown>
    decreases |groups|
  {
    if |groups| == 0 then []
    else
      var last := groups[|groups| - 1];
      Joined(groups[..|groups| - 1], rowsOf) + rowsOf(last.0, last.1)
  }

  lemma JoinedStep(groups: Assoc<Assoc<Shown>>, rowsOf: (string, Assoc<Shown>) -> seq<Shown>, i: nat)
    requires i < |groups|
    ensures Joined(groups[..i + 1], rowsOf) == Joined(groups[..i], rowsOf) + rowsOf(groups[i].0, groups[i].1)
  {
    assert groups[..i + 1][..i] == groups[..i];
  }

  /** One row per filed specimen, when each box gives one row per specimen. */
  lemma {:induction false} JoinedCount(groups: Assoc<Assoc<Shown>>, rowsOf: (string, Assoc<Shown>) -> seq<Shown>)
    requires forall i :: 0 <= i < |groups| ==> |rowsOf(groups[i].0, groups[i].1)| == |groups[i].1|
    ensures |Joined(groups, rowsOf)| == Count(groups)
    decreases |groups|
  {
    if |groups| > 0 {
      var init := groups[..|groups| - 1];
      assert forall i :: 0 <= i < |init| ==> init[i] == groups[i];
      JoinedCount(init, rowsOf);
    }
  }

  /** Every row of every box is a report row. */
  lemma {:induction false} JoinedHas(groups: Assoc<Assoc<Shown>>, rowsOf: (string, Assoc<Shown>) -> seq<Shown>, i: nat, j: nat)
    requires i < |groups| && j < |rowsOf(groups[i].0, groups[i].1)|
    ensures rowsOf(groups[i].0, groups[i].1)[j] in Joined(groups, rowsOf)
    decreases |groups|
  {
    var init := groups[..|groups| - 1];
    if i < |init| {
      assert init[i] == groups[i];
      JoinedHas(init, rowsOf, i, j);
    }
  }

  /** The rows of one box's specimens. */
  method SpecimenRowsOf(arr1: Shown, arr2: Shown, specimens: Assoc<Shown>, names: seq<string>)
    returns (rows: seq<Shown>)
    ensures rows == BoxSpecimenRows(SpecimenRow(arr1, arr2, names), specimens)
  {
    rows := [];
    for j := 0 to |specimens|
      invariant rows == BoxSpecimenRows(SpecimenRow(arr1, arr2, names), specimens[..j])
    {
      BoxSpecimenRowsStep(SpecimenRow(arr1, arr2, names), specimens, j);
      var arr3 := Tabulated(names, Picked(specimens[j].1));
      var row := ReportRow(arr1, arr2, arr3);
      assert row == SpecimenRowOf(arr1, arr2, names, specimens[j].1);
      rows := rows + [row];
    }
    assert specimens[..|specimens|] == specimens;
  }

  /** The join loop over the boxes and their specimens. */
  method JoinRows(groups: Assoc<Assoc<Shown>>, boxes: Assoc<Shown>, shipments: Assoc<Shown>,
                  cols: ByProject<Assoc<PhpVal>>) returns (data: seq<Shown>)
    ensures data == Joined(groups, GroupRows(boxes, shipments, cols))
  {
    data := [];
    for i := 0 to |groups|
      invariant data == Joined(groups[..i], GroupRows(boxes, shipments, cols))
    {
      JoinedStep(groups, GroupRows(boxes, shipments, cols), i);
      var b := groups[i].0;
      var box := Get(boxes, b).GetOr([]);
      var arr2 := IntersectKeys(box, KeySet(KeysOf(cols.box)));
      var shipment := ShipmentFor(shipments, Get(box, ShipmentRef).GetOr(Missing));
      var arr1 := Tabulated(KeysOf(cols.shipment), Picked(shipment));
      var rows := SpecimenRowsOf(arr1, arr2, groups[i].1, KeysOf(cols.specimen));
      assert rows == BoxGroupRows(boxes, shipments, cols, b, groups[i].1);
      data := data + rows;
    }
    assert groups[..|groups|] == groups;
  }

  /** The join gives one row per filed specimen. */
  lemma JoinedRowCount(groups: Assoc<Assoc<Shown>>, boxes: Assoc<Shown>, shipments: Assoc<Shown>,
                       cols: ByProject<Assoc<PhpVal>>)
    ensures |Joined(groups, GroupRows(boxes, shipments, cols))| == Count(groups)
  {
    var rowsOf := GroupRows(boxes, shipments, cols);
    forall i | 0 <= i < |groups|
      ensures |rowsOf(groups[i].0, groups[i].1)| == |groups[i].1|
    {
      assert rowsOf(groups[i].0, groups[i].1) == BoxGroupRows(boxes, shipments, cols, groups[i].0, groups[i].1);
    }
    JoinedCount(groups, rowsOf);
  }

  // ---------------------------------------------------------------- the response

  /**
   * The report rows for the given columns, read from the store: exactly one row per specimen
   * record, whether or not its box or shipment exists.
   */
  function ReportData(t: Tables, sp: ProjectMeta, box: ProjectMeta, sh: ProjectMeta,
                      cols: ByProject<Assoc<PhpVal>>, dates: DateFunctions): (rows: seq<Shown>)
    ensures |rows| == |Listed(t, sp.id)|
  {
    var specNames := KeysOf(cols.specimen);
    var data := GetData(t, sp.id, [], QueryFields(specNames));
    var groups := SpecimenGroups(sp, specNames, data, dates);
    var boxes := BoxRows(box, KeysOf(cols.box), GetData(t, box.id, KeysOf(groups), box.Names()), dates);
    SpecimenGroupsCount(sp, specNames, data, dates);
    JoinedRowCount(groups, boxes, ShipmentsById(t, sh, dates), cols);
    Joined(groups, GroupRows(boxes, ShipmentsById(t, sh, dates), cols))
  }

  /** The response: the study name, the fieldset, the rows, and the errors met. */
  datatype ReportResponse = ReportResponse(
    studyName: PhpVal,
    fields: Option<ByProject<Assoc<PhpVal>>>,
    data: seq<Shown>,
    errors: seq<string>)

  /** `handleGetReportData`, with the module configuration as read (or its errors). */
  function GetReportData(t: Tables, sp: ProjectMeta, box: ProjectMeta, sh: ProjectMeta,
                         config: Result<ModuleConfigView>, dates: DateFunctions): (r: ReportResponse)
    // a configuration error leaves the report empty and carries the error; otherwise there is none
    ensures config.Err? ==> r.errors == config.errors && r.data == [] && r.fields == None && r.studyName == Null
    ensures config.Ok? ==>
      && r.errors == [] && r.fields == Some(Columns(config.value))
      && r.studyName == config.value.state.general.studyName
      && |r.data| == |Listed(t, sp.id)|
  {
    match config
    case Err(e) => ReportResponse(Null, None, [], e)
    case Ok(view) =>
      var cols := Columns(view);
      ReportResponse(view.state.general.studyName, Some(cols), ReportData(t, sp, box, sh, cols, dates), [])
  }

  method HandleGetReportData(t: Tables, sp: ProjectMeta, box: ProjectMeta, sh: ProjectMeta,
                             config: Result<ModuleConfigView>, dates: DateFunctions) returns (r: ReportResponse)
    ensures r == GetReportData(t, sp, box, sh, config, dates)
  {
    if config.Err? {
      return ReportResponse(Null, None, [], config.errors);
    }
    var view := config.value;
    var shipCols := SelectColumns(view.state.fields.shipment, view.metadata.shipment);
    var boxCols := SelectColumns(view.state.fields.box, view.metadata.box);
    var specCols := SelectColumns(view.state.fields.specimen, view.metadata.specimen);
    var cols := ByProject(boxCols, specCols, shipCols);
    var specimenData := GetData(t, sp.id, [], QueryFields(KeysOf(specCols)));
    var groups := GroupSpecimens(sp, KeysOf(specCols), specimenData, dates);
    var boxData := PlateUtils.GetBoxes(t, box, KeysOf(groups));
    var boxes := CollectBoxRows(box, KeysOf(boxCols), boxData, dates);
    var data := JoinRows(groups, boxes, ShipmentsById(t, sh, dates), cols);
    r := ReportResponse(view.state.general.studyName, Some(cols), data, []);
  }

  // ---------------------------------------------------------------- each specimen's row

  /** The box record a specimen names. */
  function BoxOfSpecimen(t: Tables, sp: ProjectMeta, r: string): string {
    Value(t, sp.id, r, "box_record_id")
  }

  /** The report row of a stored box, when the box exists. */
  function StoredBoxRow(t: Tables, box: ProjectMeta, boxNames: seq<string>, b: string, dates: DateFunctions): Option<Shown> {
    if RecordExists(t, box.id, b) then Some(BoxRow(box, boxNames, RowOf(t, box.id, b, box.Names()), dates)) else None
  }

  /**
   * The row the report should show for specimen `r`, looked up record by record: the
   * shipment fields of the shipment its box names, the box's report fields, and its own.
   */
  function ExpectedRow(t: Tables, sp: ProjectMeta, box: ProjectMeta, sh: ProjectMeta,
                       cols: ByProject<Assoc<PhpVal>>, dates: DateFunctions, r: string): Shown {
    var specNames := KeysOf(cols.specimen);
    var boxRow := StoredBoxRow(t, box, KeysOf(cols.box), BoxOfSpecimen(t, sp, r), dates).GetOr([]);
    var shipment := StoredShipment(t, sh, Get(boxRow, ShipmentRef).GetOr(Missing), dates);
    ReportRow(Tabulate(KeysOf(cols.shipment), Picked(shipment)),
              IntersectKeys(boxRow, KeySet(KeysOf(cols.box))),
              Tabulate(specNames, Displayed(sp, RowOf(t, sp.id, r, QueryFields(specNames)), dates)))
  }

  /** The boxes the report reads hold the row of every stored box some specimen names. */
  lemma BoxesOfGroups(t: Tables, box: ProjectMeta, groups: Assoc<Assoc<Shown>>,
                      boxNames: seq<string>, dates: DateFunctions, b: string)
    requires b in KeysOf(groups)
    ensures Get(BoxRows(box, boxNames, GetData(t, box.id, KeysOf(groups), box.Names()), dates), b) ==
      StoredBoxRow(t, box, boxNames, b, dates)
  {
    GetDataGet(t, box.id, KeysOf(groups), box.Names(), b);
    BoxRowsGet(box, boxNames, GetData(t, box.id, KeysOf(groups), box.Names()), dates, b);
  }

  /** Every stored specimen is filed under the box it names, with its display row. */
  lemma FiledSpecimen(t: Tables, sp: ProjectMeta, specNames: seq<string>, dates: DateFunctions, r: string)
    requires RecordExists(t, sp.id, r)
    ensures Filed(SpecimenGroups(sp, specNames, GetData(t, sp.id, [], QueryFields(specNames)), dates),
                  BoxOfSpecimen(t, sp, r), r) ==
      Some(Tabulate(specNames, Displayed(sp, RowOf(t, sp.id, r, QueryFields(specNames)), dates)))
  {
    var fs := QueryFields(specNames);
    var data := GetData(t, sp.id, [], fs);
    GetDataGet(t, sp.id, [], fs, r);
    GetRowOf(t, sp.id, r, fs, "box_record_id");
    SpecimenGroupsGet(sp, specNames, data, dates, BoxOfSpecimen(t, sp, r), r);
  }

  /** A filed row sits at some box position and some specimen position of the groups. */
  lemma FiledAt(groups: Assoc<Assoc<Shown>>, b: string, r: string) returns (i: nat, j: nat)
    requires Filed(groups, b, r).Some?
    ensures i < |groups| && j < |groups[i].1| && groups[i].0 == b && groups[i].1[j] == (r, Filed(groups, b, r).value)
  {
    var inner := Get(groups, b).value;
    i :| 0 <= i < |groups| && groups[i] == (b, inner);
    j :| 0 <= j < |inner| && inner[j] == (r, Filed(groups, b, r).value);
  }

  /** The box and shipment parts the join computes for a specimen's box are the record-by-record lookups. */
  lemma PartsOfBox(t: Tables, box: ProjectMeta, sh: ProjectMeta, groups: Assoc<Assoc<Shown>>,
                   cols: ByProject<Assoc<PhpVal>>, dates: DateFunctions, b: string)
    requires b in KeysOf(groups)
    ensures var boxes := BoxRows(box, KeysOf(cols.box), GetData(t, box.id, KeysOf(groups), box.Names()), dates);
      var boxRow := StoredBoxRow(t, box, KeysOf(cols.box), b, dates).GetOr([]);
      && BoxPart(boxes, b, KeysOf(cols.box)) == IntersectKeys(boxRow, KeySet(KeysOf(cols.box)))
      && ShipmentPart(boxes, ShipmentsById(t, sh, dates), b, KeysOf(cols.shipment)) ==
         Tabulate(KeysOf(cols.shipment), Picked(StoredShipment(t, sh, Get(boxRow, ShipmentRef).GetOr(Missing), dates)))
  {
    BoxesOfGroups(t, box, groups, KeysOf(cols.box), dates, b);
    var boxRow := StoredBoxRow(t, box, KeysOf(cols.box), b, dates).GetOr([]);
    ShipmentForFinds(t, sh, dates, Get(boxRow, ShipmentRef).GetOr(Missing));
  }

  /** Every filed specimen has its row in the report: its box's shipment and box parts, then its own fields. */
  lemma FiledRowReported(groups: Assoc<Assoc<Shown>>, boxes: Assoc<Shown>, shipments: Assoc<Shown>,
                         cols: ByProject<Assoc<PhpVal>>, i: nat, j: nat)
    requires i < |groups| && j < |groups[i].1|
    ensures SpecimenRowOf(ShipmentPart(boxes, shipments, groups[i].0, KeysOf(cols.shipment)),
                          BoxPart(boxes, groups[i].0, KeysOf(cols.box)), KeysOf(cols.specimen), groups[i].1[j].1)
      in Joined(groups, GroupRows(boxes, shipments, cols))
  {
    var row := SpecimenRow(ShipmentPart(boxes, shipments, groups[i].0, KeysOf(cols.shipment)),
                           BoxPart(boxes, groups[i].0, KeysOf(cols.box)), KeysOf(cols.specimen));
    assert GroupRows(boxes, shipments, cols)(groups[i].0, groups[i].1) == BoxSpecimenRows(row, groups[i].1);
    BoxSpecimenRowsAt(row, groups[i].1, j);
    assert row(groups[i].1[j].1) == SpecimenRowOf(ShipmentPart(boxes, shipments, groups[i].0, KeysOf(cols.shipment)),
                           BoxPart(boxes, groups[i].0, KeysOf(cols.box)), KeysOf(cols.specimen), groups[i].1[j].1);
    JoinedHas(groups, GroupRows(boxes, shipments, cols), i, j);
  }

  /** Every stored specimen's row appears in the report, as the record-by-record lookup gives it. */
  lemma ReportHasEachSpecimen(t: Tables, sp: ProjectMeta, box: ProjectMeta, sh: ProjectMeta,
                              cols: ByProject<Assoc<PhpVal>>, dates: DateFunctions, r: string)
    requires RecordExists(t, sp.id, r)
    ensures ExpectedRow(t, sp, box, sh, cols, dates, r) in ReportData(t, sp, box, sh, cols, dates)
  {
    var specNames := KeysOf(cols.specimen);
    var groups := SpecimenGroups(sp, specNames, GetData(t, sp.id, [], QueryFields(specNames)), dates);
    FiledSpecimen(t, sp, specNames, dates, r);
    FiledReported(t, sp, box, sh, cols, dates, r, groups);
  }

  /** A specimen filed with its display row under the box it names has its expected row in the join. */
  lemma FiledReported(t: Tables, sp: ProjectMeta, box: ProjectMeta, sh: ProjectMeta,
                      cols: ByProject<Assoc<PhpVal>>, dates: DateFunctions, r: string, groups: Assoc<Assoc<Shown>>)
    requires Filed(groups, BoxOfSpecimen(t, sp, r), r) ==
      Some(Tabulate(KeysOf(cols.specimen), Displayed(sp, RowOf(t, sp.id, r, QueryFields(KeysOf(cols.specimen))), dates)))
    ensures ExpectedRow(t, sp, box, sh, cols, dates, r) in
      Joined(groups, GroupRows(BoxRows(box, KeysOf(cols.box), GetData(t, box.id, KeysOf(groups), box.Names()), dates),
                               ShipmentsById(t, sh, dates), cols))
  {
    var specNames := KeysOf(cols.specimen);
    var boxes := BoxRows(box, KeysOf(cols.box), GetData(t, box.id, KeysOf(groups), box.Names()), dates);
    var shipments := ShipmentsById(t, sh, dates);
    FiledRowIn(groups, boxes, shipments, cols, BoxOfSpecimen(t, sp, r), r);
    ExpectedRowJoined(t, sp, box, sh, cols, dates, r, groups);
  }

  /** A filed specimen's row, built from its box's parts, is in the join. */
  lemma FiledRowIn(groups: Assoc<Assoc<Shown>>, boxes: Assoc<Shown>, shipments: Assoc<Shown>,
                   cols: ByProject<Assoc<PhpVal>>, b: string, r: string)
    requires Filed(groups, b, r).Some?
    ensures b in KeysOf(groups)
    ensures SpecimenRowOf(ShipmentPart(boxes, shipments, b, KeysOf(cols.shipment)), BoxPart(boxes, b, KeysOf(cols.box)),
                          KeysOf(cols.specimen), Filed(groups, b, r).value)
      in Joined(groups, GroupRows(boxes, shipments, cols))
  {
    var i, j := FiledAt(groups, b, r);
    FiledRowReported(groups, boxes, shipments, cols, i, j);
    assert KeysOf(groups)[i] == b;
  }

  /** The expected row of a filed specimen is the row the join builds from its box's parts. */
  lemma ExpectedRowJoined(t: Tables, sp: ProjectMeta, box: ProjectMeta, sh: ProjectMeta,
                          cols: ByProject<Assoc<PhpVal>>, dates: DateFunctions, r: string, groups: Assoc<Assoc<Shown>>)
    requires BoxOfSpecimen(t, sp, r) in KeysOf(groups)
    ensures var specNames := KeysOf(cols.specimen);
      var boxes := BoxRows(box, KeysOf(cols.box), GetData(t, box.id, KeysOf(groups), box.Names()), dates);
      var b := BoxOfSpecimen(t, sp, r);
      ExpectedRow(t, sp, box, sh, cols, dates, r) ==
        SpecimenRowOf(ShipmentPart(boxes, ShipmentsById(t, sh, dates), b, KeysOf(cols.shipment)),
                      BoxPart(boxes, b, KeysOf(cols.box)), specNames,
                      Tabulate(specNames, Displayed(sp, RowOf(t, sp.id, r, QueryFields(specNames)), dates)))
  {
    var specNames := KeysOf(cols.specimen);
    PartsOfBox(t, box, sh, groups, cols, dates, BoxOfSpecimen(t, sp, r));
    PickTabulated(specNames, Displayed(sp, RowOf(t, sp.id, r, QueryFields(specNames)), dates));
  }

  // ---------------------------------------------------------------- what a row shows

  /** `array_merge`: later parts win for a field they share, and each part adds its own fields. */
  lemma {:induction false} MergeGet<V>(a: Assoc<V>, b: Assoc<V>, k: string)
    requires DistinctKeys(b)
    ensures Get(Merge(a, b), k) == if k in KeysOf(b) then Get(b, k) else Get(a, k)
    decreases |b|
  {
    if |b| > 0 {
      var rest := b[1..];
      assert b == [b[0]] + rest;
      assert DistinctKeys(rest) by {
        assert forall i :: 0 <= i < |rest| ==> rest[i] == b[i + 1];
      }
      assert b[0].0 !in KeysOf(rest) by {
        forall i | 0 <= i < |rest|
          ensures KeysOf(rest)[i] != b[0].0
        {
          assert rest[i] == b[i + 1];
        }
      }
      assert k in KeysOf(b) <==> k == b[0].0 || k in KeysOf(rest) by {
        KeysOfConcat([b[0]], rest);
      }
      MergeGet(Put(a, b[0].0, b[0].1), rest, k);
      GetCons(b[0], rest, k);
      if k != b[0].0 {
        GetAfterPut(a, b[0].0, b[0].1, k);
      }
    }
  }

  /** A report row shows a field from the specimen, else from the box, else from the shipment. */
  lemma ReportRowGet(arr1: Shown, arr2: Shown, arr3: Shown, k: string)
    requires DistinctKeys(arr1) && DistinctKeys(arr2) && DistinctKeys(arr3)
    ensures Get(ReportRow(arr1, arr2, arr3), k) ==
      if k in KeysOf(arr3) then Get(arr3, k) else if k in KeysOf(arr2) then Get(arr2, k) else Get(arr1, k)
  {
    MergeGet([], arr1, k);
    MergeGet(Merge([], arr1), arr2, k);
    MergeGet(Merge(Merge([], arr1), arr2), arr3, k);
  }

  /**
   * A report row's columns: the shipment part's, then the box part's that the shipment part
   * lacks, then the specimen part's that neither has, each in its part's order.
   */
  lemma ReportRowKeys(arr1: Shown, arr2: Shown, arr3: Shown)
    requires DistinctKeys(arr1)
    ensures var k2 := KeysOf(arr1) + NewKeys(KeysOf(arr1), KeysOf(arr2));
      KeysOf(ReportRow(arr1, arr2, arr3)) == k2 + NewKeys(k2, KeysOf(arr3))
  {
    MergeKeys([], arr1);
    assert KeysOf<FieldValue>([]) == [];
    assert Distinct(KeysOf(arr1));
    NewKeysAllFresh([], KeysOf(arr1));
    assert [] + KeysOf(arr1) == KeysOf(arr1);
    MergeKeys(Merge([], arr1), arr2);
    MergeKeys(Merge(Merge([], arr1), arr2), arr3);
  }

  /** A stored value as the report reads it: null when the project's query does not return the field. */
  function StoredValue(t: Tables, proj: ProjectMeta, fields: seq<string>, r: string, k: string): FieldValue {
    if k in fields then Text(Value(t, proj.id, r, k)) else Missing
  }

  lemma RawValueOf(t: Tables, proj: ProjectMeta, fields: seq<string>, r: string, k: string)
    ensures RawValue(RowOf(t, proj.id, r, fields), k) == StoredValue(t, proj, fields, r, k)
  {
    if k in fields {
      GetRowOf(t, proj.id, r, fields, k);
    }
  }

  /** The box part holds each box report field: its display value, or the raw shipment reference. */
  lemma BoxPartGet(box: ProjectMeta, names: seq<string>, raw: Row, dates: DateFunctions, k: string)
    ensures DistinctKeys(IntersectKeys(BoxRow(box, names, raw, dates), KeySet(names)))
    ensures Get(IntersectKeys(BoxRow(box, names, raw, dates), KeySet(names)), k) ==
      if k !in names then None
      else if k == ShipmentRef then Some(RawValue(raw, ShipmentRef))
      else Some(FieldDisplayValue(box, k, RawValue(raw, k), dates).value)
  {
    var tab := Tabulate(names, Displayed(box, raw, dates));
    TabulateGet(names, Displayed(box, raw, dates), k);
    PutKeepsDistinct(tab, ShipmentRef, RawValue(raw, ShipmentRef));
    if k != ShipmentRef {
      GetAfterPut(tab, ShipmentRef, RawValue(raw, ShipmentRef), k);
    }
    IntersectGet(BoxRow(box, names, raw, dates), KeySet(names), k);
  }

  /** The shipment whose fields a specimen's row shows: the one its box names, none when the box does not exist. */
  function ShipmentOfBox(t: Tables, box: ProjectMeta, sh: ProjectMeta, b: string, dates: DateFunctions): Shown {
    if RecordExists(t, box.id, b) then StoredShipment(t, sh, StoredValue(t, box, box.Names(), b, ShipmentRef), dates) else []
  }

  /** The specimen part holds each specimen report field's display value of the stored value. */
  lemma SpecimenPartGet(t: Tables, sp: ProjectMeta, specNames: seq<string>, r: string, dates: DateFunctions, k: string)
    ensures var arr3 := Tabulate(specNames, Displayed(sp, RowOf(t, sp.id, r, QueryFields(specNames)), dates));
      && DistinctKeys(arr3)
      && Get(arr3, k) == if k in specNames then Some(FieldDisplayValue(sp, k, Text(Value(t, sp.id, r, k)), dates).value) else None
  {
    TabulateGet(specNames, Displayed(sp, RowOf(t, sp.id, r, QueryFields(specNames)), dates), k);
    RawValueOf(t, sp, QueryFields(specNames), r, k);
  }

  /**
   * The box part holds each box report field when the box exists: its display value, or the
   * raw shipment reference for `shipment_record_id`; and the box row names the box's shipment.
   */
  lemma StoredBoxPartGet(t: Tables, box: ProjectMeta, boxNames: seq<string>, b: string, dates: DateFunctions, k: string)
    ensures var boxRow := StoredBoxRow(t, box, boxNames, b, dates).GetOr([]);
      var arr2 := IntersectKeys(boxRow, KeySet(boxNames));
      && DistinctKeys(arr2)
      && Get(arr2, k) ==
        (if k in boxNames && RecordExists(t, box.id, b) then
           Some(if k == ShipmentRef then StoredValue(t, box, box.Names(), b, k)
                else FieldDisplayValue(box, k, StoredValue(t, box, box.Names(), b, k), dates).value)
         else None)
      && Get(boxRow, ShipmentRef).GetOr(Missing) ==
        (if RecordExists(t, box.id, b) then StoredValue(t, box, box.Names(), b, ShipmentRef) else Missing)
  {
    var raw := RowOf(t, box.id, b, box.Names());
    RawValueOf(t, box, box.Names(), b, k);
    RawValueOf(t, box, box.Names(), b, ShipmentRef);
    if RecordExists(t, box.id, b) {
      BoxPartGet(box, boxNames, raw, dates, k);
      assert Get(BoxRow(box, boxNames, raw, dates), ShipmentRef) == Some(RawValue(raw, ShipmentRef));
    }
  }

  /** The shipment part holds each shipment report field: the named shipment's value, null when it lacks one. */
  lemma ShipmentPartGet(shipment: Shown, shipNames: seq<string>, k: string)
    ensures DistinctKeys(Tabulate(shipNames, Picked(shipment)))
    ensures Get(Tabulate(shipNames, Picked(shipment)), k) ==
      if k in shipNames then Some(Get(shipment, k).GetOr(Missing)) else None
  {
    TabulateGet(shipNames, Picked(shipment), k);
  }

  /**
   * What specimen `r`'s row shows for field `k`: its own display value for a specimen report
   * field; else, when its box exists, the box's display value for a box report field (the
   * raw shipment reference for `shipment_record_id`); else, for a shipment report field, the
   * value of the shipment its box names (null when there is no such box, shipment or field).
   */
  lemma ExpectedRowGet(t: Tables, sp: ProjectMeta, box: ProjectMeta, sh: ProjectMeta,
                       cols: ByProject<Assoc<PhpVal>>, dates: DateFunctions, r: string, k: string)
    ensures var b := BoxOfSpecimen(t, sp, r);
      Get(ExpectedRow(t, sp, box, sh, cols, dates, r), k) ==
        if k in KeysOf(cols.specimen) then Some(FieldDisplayValue(sp, k, Text(Value(t, sp.id, r, k)), dates).value)
        else if k in KeysOf(cols.box) && RecordExists(t, box.id, b) then
          Some(if k == ShipmentRef then StoredValue(t, box, box.Names(), b, k)
               else FieldDisplayValue(box, k, StoredValue(t, box, box.Names(), b, k), dates).value)
        else if k in KeysOf(cols.shipment) then Some(Get(ShipmentOfBox(t, box, sh, b, dates), k).GetOr(Missing))
        else None
  {
    var specNames := KeysOf(cols.specimen);
    var b := BoxOfSpecimen(t, sp, r);
    var boxRow := StoredBoxRow(t, box, KeysOf(cols.box), b, dates).GetOr([]);
    var shipment := StoredShipment(t, sh, Get(boxRow, ShipmentRef).GetOr(Missing), dates);
    SpecimenPartGet(t, sp, specNames, r, dates, k);
    StoredBoxPartGet(t, box, KeysOf(cols.box), b, dates, k);
    ShipmentPartGet(shipment, KeysOf(cols.shipment), k);
    assert shipment == ShipmentOfBox(t, box, sh, b, dates);
    ReportRowGet(Tabulate(KeysOf(cols.shipment), Picked(shipment)),
                 IntersectKeys(boxRow, KeySet(KeysOf(cols.box))),
                 Tabulate(specNames, Displayed(sp, RowOf(t, sp.id, r, QueryFields(specNames)), dates)), k);
  }
}
