/**
 * Boxes ("plates"): reading one box or several from the Box project, parsing a box name, and
 * the box list of the dashboards, filtered by status and by a search on box and specimen names.
 */
module PlateUtils {
  import opened Wrappers
  import opened Php
  import opened RecordStore
  import opened NamePatterns

  /** `array_values`: the rows of a record-keyed result, in order. */
  function Values(a: Assoc<Row>): (rows: seq<Row>)
    ensures |rows| == |a| && forall i :: 0 <= i < |a| ==> rows[i] == a[i].1
  {
    seq(|a|, i requires 0 <= i < |a| => a[i].1)
  }

  /**
   * `getBoxes`: the first-event data of the requested boxes, keyed by record id; an empty
   * request reads every box, as the host's `getData` does.
   */
  method GetBoxes(t: Tables, box: ProjectMeta, ids: seq<string>) returns (results: Assoc<Row>)
    ensures results == GetData(t, box.id, ids, box.Names())
  {
    var records := GetData(t, box.id, ids, box.Names());
    results := [];
    for i := 0 to |records|
      invariant results == records[..i]
    {
      PutNext(records, i);
      results := Put(results, records[i].0, records[i].1);
    }
    assert records[..|records|] == records;
  }

  /** The box records a request reads: all boxes for an empty request, else the requested boxes that exist. */
  lemma BoxesSelected(t: Tables, box: ProjectMeta, ids: seq<string>, r: string)
    ensures var data := GetData(t, box.id, ids, box.Names());
      && (r in KeysOf(data) <==> RecordExists(t, box.id, r) && (ids == [] || r in ids))
      && (r in KeysOf(data) ==> Get(data, r) == Some(RowOf(t, box.id, r, box.Names())))
  {
    GetDataGet(t, box.id, ids, box.Names(), r);
  }

  /** The box a `getBox` call names: none for a non-numeric id or a box that does not exist. */
  function BoxOf(t: Tables, box: ProjectMeta, id: string): Option<Row> {
    if !IsNumericStr(id) then None else Get(GetData(t, box.id, [id], box.Names()), id)
  }

  /** `getBox`; the empty array and null it can return are both "no box" here. */
  method GetBox(t: Tables, box: ProjectMeta, id: string) returns (r: Option<Row>)
    ensures r == BoxOf(t, box, id)
  {
    if !IsNumericStr(id) {
      return None;
    }
    var boxes := GetBoxes(t, box, [id]);
    r := Get(boxes, id);
  }

  /** A box is found exactly when its id is numeric and the record exists, and then it is the record's row. */
  lemma BoxFound(t: Tables, box: ProjectMeta, id: string)
    ensures BoxOf(t, box, id).Some? <==> IsNumericStr(id) && RecordExists(t, box.id, id)
    ensures BoxOf(t, box, id).Some? ==> BoxOf(t, box, id).value == RowOf(t, box.id, id, box.Names())
  {
    BoxesSelected(t, box, [id], id);
  }

  // ---------------------------------------------------------------- the box list

  /** The database's `LIKE`: whether a value matches a `%text%` pattern. */
  type Like = (string, string) -> bool

  /** Whether a stored cell is present (the data table holds no row for a blank value). */
  predicate HasCell(t: Tables, project: string, record: string, field: string) {
    Cell(project, record, field) in t.cells
  }

  /** Whether a specimen linked to box `r` has a name matching the search. */
  predicate LinkedSpecimenMatches(t: Tables, specimen: ProjectMeta, like: Like, r: string, search: string) {
    exists s :: s in Listed(t, specimen.id)
      && HasCell(t, specimen.id, s, "box_record_id") && Value(t, specimen.id, s, "box_record_id") == r
      && HasCell(t, specimen.id, s, "specimen_name") && like(Value(t, specimen.id, s, "specimen_name"), "%" + search + "%")
  }

  /**
   * The box-list query: a box with a name, available if closed boxes are excluded, and, for
   * a search, whose name or a linked specimen's name matches.
   */
  predicate ListedBox(t: Tables, box: ProjectMeta, specimen: ProjectMeta, like: Like,
                      excludeClosed: bool, search: string, r: string) {
    && HasCell(t, box.id, r, "box_name")
    && (excludeClosed ==> HasCell(t, box.id, r, "box_status") && Value(t, box.id, r, "box_status") == "available")
    && (!EmptyStr(search) ==>
          like(Value(t, box.id, r, "box_name"), "%" + search + "%") || LinkedSpecimenMatches(t, specimen, like, r, search))
  }

  /** The records the query returns, grouped so that each box comes once, in listing order. */
  function BoxListRecords(t: Tables, box: ProjectMeta, specimen: ProjectMeta, like: Like,
                          excludeClosed: bool, search: string): (rs: seq<string>)
    ensures Distinct(rs)
    ensures forall r :: r in rs <==> RecordExists(t, box.id, r) && ListedBox(t, box, specimen, like, excludeClosed, search, r)
  {
    FilterBoxes(t, box, specimen, like, excludeClosed, search, Listed(t, box.id))
  }

  function FilterBoxes(t: Tables, box: ProjectMeta, specimen: ProjectMeta, like: Like,
                       excludeClosed: bool, search: string, rs: seq<string>): (out: seq<string>)
    requires Distinct(rs)
    ensures Distinct(out)
    ensures forall r :: r in out <==> r in rs && ListedBox(t, box, specimen, like, excludeClosed, search, r)
    decreases |rs|
  {
    if |rs| == 0 then []
    else
      var rest := FilterBoxes(t, box, specimen, like, excludeClosed, search, rs[1..]);
      assert rs[0] !in rs[1..];
      if ListedBox(t, box, specimen, like, excludeClosed, search, rs[0]) then [rs[0]] + rest else rest
  }

  /**
   * `getBoxList` as written: the boxes are read whenever the search is empty, even when the
   * query found no record, and reading no records reads every box.
   */
  function BoxListAsWritten(t: Tables, box: ProjectMeta, specimen: ProjectMeta, like: Like,
                            excludeClosed: bool, search: string): seq<Row> {
    var records := BoxListRecords(t, box, specimen, like, excludeClosed, search);
    if EmptyStr(search) || |records| > 0 then Values(GetData(t, box.id, records, box.Names())) else []
  }

  /**
   * The box list: in listing order and each once, the row of every existing box that has a
   * name, is available when closed boxes are excluded, and matches the search; none when the
   * query found none.
   */
  function BoxList(t: Tables, box: ProjectMeta, specimen: ProjectMeta, like: Like,
                   excludeClosed: bool, search: string): (boxes: seq<Row>)
    ensures var records := BoxListRecords(t, box, specimen, like, excludeClosed, search);
      && |boxes| == |records|
      && forall i :: 0 <= i < |records| ==> boxes[i] == RowOf(t, box.id, records[i], box.Names())
  {
    var records := BoxListRecords(t, box, specimen, like, excludeClosed, search);
    if |records| > 0 then
      KeepOwnFilter(t, box, specimen, like, excludeClosed, search, Listed(t, box.id));
      Values(GetData(t, box.id, records, box.Names()))
    else []
  }

  /** `getBoxList`: collects the query's records, then reads their boxes. */
  method GetBoxList(t: Tables, box: ProjectMeta, specimen: ProjectMeta, like: Like,
                    excludeClosed: bool, search: string) returns (boxes: seq<Row>)
    ensures boxes == BoxList(t, box, specimen, like, excludeClosed, search)
  {
    var listed := Listed(t, box.id);
    var records: seq<string> := [];
    for i := 0 to |listed|
      invariant records == FilterBoxes(t, box, specimen, like, excludeClosed, search, listed[..i])
    {
      assert listed[..i + 1][..i] == listed[..i];
      FilterAppend(t, box, specimen, like, excludeClosed, search, listed[..i], listed[i]);
      assert listed[..i + 1] == listed[..i] + [listed[i]];
      if ListedBox(t, box, specimen, like, excludeClosed, search, listed[i]) {
        records := records + [listed[i]];
      }
    }
    assert listed[..|listed|] == listed;
    boxes := [];
    if |records| > 0 {
      var data := GetBoxes(t, box, records);
      boxes := Values(data);
    }
  }

  lemma {:induction false} FilterAppend(t: Tables, box: ProjectMeta, specimen: ProjectMeta, like: Like,
                                        excludeClosed: bool, search: string, rs: seq<string>, x: string)
    requires Distinct(rs + [x])
    ensures Distinct(rs)
    ensures FilterBoxes(t, box, specimen, like, excludeClosed, search, rs + [x]) ==
      FilterBoxes(t, box, specimen, like, excludeClosed, search, rs) +
      (if ListedBox(t, box, specimen, like, excludeClosed, search, x) then [x] else [])
    decreases |rs|
  {
    assert forall i, j :: 0 <= i < j < |rs| ==> rs[i] == (rs + [x])[i] && rs[j] == (rs + [x])[j];
    if |rs| > 0 {
      assert (rs + [x])[1..] == rs[1..] + [x];
      assert (rs + [x])[0] == rs[0];
      FilterAppend(t, box, specimen, like, excludeClosed, search, rs[1..], x);
    } else {
      assert (rs + [x])[1..] == [];
    }
  }

  /** `Keep` only looks at which members of `rs` the wanted list holds. */
  lemma {:induction false} KeepCongruent(rs: seq<string>, a: seq<string>, b: seq<string>)
    requires forall x :: x in rs ==> (x in a <==> x in b)
    ensures Keep(rs, a) == Keep(rs, b)
    decreases |rs|
  {
    if |rs| > 0 {
      KeepCongruent(rs[1..], a, b);
    }
  }

  /** Reading the records a filter kept returns them in the same order. */
  lemma {:induction false} KeepOwnFilter(t: Tables, box: ProjectMeta, specimen: ProjectMeta, like: Like,
                                         excludeClosed: bool, search: string, rs: seq<string>)
    requires Distinct(rs)
    ensures Keep(rs, FilterBoxes(t, box, specimen, like, excludeClosed, search, rs)) ==
      FilterBoxes(t, box, specimen, like, excludeClosed, search, rs)
    decreases |rs|
  {
    if |rs| > 0 {
      var out := FilterBoxes(t, box, specimen, like, excludeClosed, search, rs);
      var rest := FilterBoxes(t, box, specimen, like, excludeClosed, search, rs[1..]);
      assert Distinct(rs[1..]) by {
        forall i, j | 0 <= i < j < |rs[1..]| ensures rs[1..][i] != rs[1..][j] {
          assert rs[1..][i] == rs[i + 1] && rs[1..][j] == rs[j + 1];
        }
      }
      KeepOwnFilter(t, box, specimen, like, excludeClosed, search, rs[1..]);
      forall x | x in rs[1..] ensures x in out <==> x in rest {
        assert rs[0] !in rs[1..];
      }
      KeepCongruent(rs[1..], out, rest);
    }
  }

  /** A non-empty search that finds no box lists nothing, as written and as corrected. */
  lemma EmptySearchResult(t: Tables, box: ProjectMeta, specimen: ProjectMeta, like: Like,
                          excludeClosed: bool, search: string)
    requires !EmptyStr(search) && BoxListRecords(t, box, specimen, like, excludeClosed, search) == []
    ensures BoxListAsWritten(t, box, specimen, like, excludeClosed, search) == []
    ensures BoxList(t, box, specimen, like, excludeClosed, search) == []
  {
  }

  /** One closed box and nothing else. */
  function OneClosedBox(): Tables {
    Tables(map[Cell("b", "1", "box_name") := "B1", Cell("b", "1", "box_status") := "closed"], map["b" := ["1"]])
  }

  const BoxProject := ProjectMeta("b", [], "box", "record_id")

  /**
   * As written, excluding closed boxes with no search lists a closed box: the query finds no
   * available box, and reading no records reads all of them.
   */
  lemma ClosedBoxListedAsWritten(like: Like, specimen: ProjectMeta)
    ensures Value(OneClosedBox(), "b", "1", "box_status") == "closed"
    ensures |BoxListAsWritten(OneClosedBox(), BoxProject, specimen, like, true, "")| == 1
    ensures BoxList(OneClosedBox(), BoxProject, specimen, like, true, "") == []
  {
    var t := OneClosedBox();
    assert Unique(["1"]) == ["1"] by {
      assert ["1"][..0] == [];
    }
    assert Listed(t, "b") == ["1"];
    assert !ListedBox(t, BoxProject, specimen, like, true, "", "1");
    assert BoxListRecords(t, BoxProject, specimen, like, true, "") == [];
    assert Selected(t, "b", []) == ["1"];
  }
}
