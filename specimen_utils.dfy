/**
 * Specimens: the specimens stored in one box or in several, the search that finds a specimen
 * by name (exact, or through the name pattern when "pre-fill by nomenclature" is configured),
 * and the handlers that read, save and delete one specimen, plus the box view that shows a
 * box with its specimens.
 */
module SpecimenUtils {
  import opened Wrappers
  import opened Php
  import opened RecordStore
  import opened ConfigUtils
  import opened NamePatterns
  import opened PlateUtils

  const InvalidRecordId := "Missing or invalid record_id specified."
  const NoSearchValue := "No search value provided."
  const IncompletePrefill := "Pre-fill by Nomenclature enabled but ignored, due to incomplete configuration."
  const NoSpecimenValue := "Cannot create/update specimen.  No specimen value provided."
  const DeleteFailed := "Delete action failed - One or more parameters were invalid or record does not exist!"

  // ---------------------------------------------------------------- specimens of a box

  /** The specimen records a `[box_record_id] = id` filter selects; none for a non-numeric id. */
  function BoxSpecimenRecords(t: Tables, sp: ProjectMeta, boxId: string): (rs: seq<string>)
    ensures !IsNumericStr(boxId) ==> rs == []
    ensures IsNumericStr(boxId) ==>
      forall x :: x in rs <==> RecordExists(t, sp.id, x) && Value(t, sp.id, x, "box_record_id") == boxId
  {
    if !IsNumericStr(boxId) then [] else Where(t, sp.id, "box_record_id", boxId)
  }

  /** `getSpecimensForBox`: the rows of the specimens stored in the box, in record order. */
  function SpecimensForBox(t: Tables, sp: ProjectMeta, boxId: string): (rows: seq<Row>)
    ensures |rows| == |BoxSpecimenRecords(t, sp, boxId)|
    ensures forall i :: 0 <= i < |rows| ==>
      && KeysOf(rows[i]) == sp.Names()
      && forall k :: 0 <= k < |rows[i]| ==>
           rows[i][k].1 == Value(t, sp.id, BoxSpecimenRecords(t, sp, boxId)[i], sp.Names()[k])
  {
    var rs := BoxSpecimenRecords(t, sp, boxId);
    seq(|rs|, i requires 0 <= i < |rs| => RowOf(t, sp.id, rs[i], sp.Names()))
  }

  /**
   * Each row of a box's specimens is the full row of an existing specimen: every field reads
   * that specimen's stored value, and its `box_record_id` is the box it was asked for.
   */
  lemma SpecimenRowNamesBox(t: Tables, sp: ProjectMeta, boxId: string, i: nat)
    requires i < |SpecimensForBox(t, sp, boxId)|
    ensures var row := SpecimensForBox(t, sp, boxId)[i];
      var r := BoxSpecimenRecords(t, sp, boxId)[i];
      && KeysOf(row) == sp.Names()
      && RecordExists(t, sp.id, r)
      && (forall f :: f in sp.Names() ==> Get(row, f) == Some(Value(t, sp.id, r, f)))
      && ("box_record_id" in sp.Names() ==> Get(row, "box_record_id") == Some(boxId))
  {
    var rs := BoxSpecimenRecords(t, sp, boxId);
    assert rs[i] in rs;
    forall f | f in sp.Names()
      ensures Get(SpecimensForBox(t, sp, boxId)[i], f) == Some(Value(t, sp.id, rs[i], f))
    {
      GetRowOf(t, sp.id, rs[i], sp.Names(), f);
    }
  }

  // ---------------------------------------------------------------- specimens of several boxes

  /** The box a specimen row names: its `box_record_id` value. */
  function BoxKey(row: Row): string {
    Get(row, "box_record_id").GetOr("")
  }

  /** Whether a specimen has a stored `box_record_id` naming one of the requested boxes. */
  predicate InBoxes(t: Tables, sp: ProjectMeta, boxIds: seq<string>, r: string) {
    HasCell(t, sp.id, r, "box_record_id") && Value(t, sp.id, r, "box_record_id") in boxIds
  }

  /** The records the `box_record_id IN (...)` query returns, in listing order. */
  function CandidatesIn(t: Tables, sp: ProjectMeta, boxIds: seq<string>, rs: seq<string>): (out: seq<string>)
    ensures forall r :: r in out <==> r in rs && InBoxes(t, sp, boxIds, r)
  {
    if |rs| == 0 then []
    else if InBoxes(t, sp, boxIds, rs[0]) then [rs[0]] + CandidatesIn(t, sp, boxIds, rs[1..])
    else CandidatesIn(t, sp, boxIds, rs[1..])
  }

  function Candidates(t: Tables, sp: ProjectMeta, boxIds: seq<string>): seq<string> {
    CandidatesIn(t, sp, boxIds, Listed(t, sp.id))
  }

  /** Files one specimen under its box: `$result[box][record] = specimen`. */
  function FileUnder(groups: Assoc<Assoc<Row>>, record: string, row: Row): Assoc<Assoc<Row>> {
    Put(groups, BoxKey(row), Put(Get(groups, BoxKey(row)).GetOr([]), record, row))
  }

  /** The specimens of `data` filed under their boxes, one after the other. */
  function Grouped(data: Assoc<Row>): Assoc<Assoc<Row>>
    decreases |data|
  {
    if |data| == 0 then []
    else
      var last := data[|data| - 1];
      FileUnder(Grouped(data[..|data| - 1]), last.0, last.1)
  }

  /** The specimen filed under box `b` as record `r`, if any. */
  function NestedGet(groups: Assoc<Assoc<Row>>, b: string, r: string): Option<Row> {
    match Get(groups, b)
    case None => None
    case Some(inner) => Get(inner, r)
  }

  /** `getSpecimensForBoxes`: the specimens of the requested boxes, grouped by box. */
  function SpecimensForBoxes(t: Tables, sp: ProjectMeta, boxIds: seq<string>): Assoc<Assoc<Row>> {
    var cands := Candidates(t, sp, boxIds);
    if cands == [] then [] else Grouped(GetData(t, sp.id, cands, sp.Names()))
  }

  method GetSpecimensForBoxes(t: Tables, sp: ProjectMeta, boxIds: seq<string>) returns (result: Assoc<Assoc<Row>>)
    ensures result == SpecimensForBoxes(t, sp, boxIds)
  {
    var cands := Candidates(t, sp, boxIds);
    if cands == [] {
      return [];
    }
    var records := GetData(t, sp.id, cands, sp.Names());
    result := GroupByBox(records);
  }

  /** The grouping loop: each specimen filed under its box in turn. */
  method GroupByBox(records: Assoc<Row>) returns (result: Assoc<Assoc<Row>>)
    ensures result == Grouped(records)
  {
    result := [];
    for i := 0 to |records|
      invariant result == Grouped(records[..i])
    {
      GroupedStep(records, i);
      result := FileUnder(result, records[i].0, records[i].1);
    }
    assert records[..|records|] == records;
  }

  /** Grouping one more specimen files it under its box. */
  lemma GroupedStep(records: Assoc<Row>, i: nat)
    requires i < |records|
    ensures Grouped(records[..i + 1]) == FileUnder(Grouped(records[..i]), records[i].0, records[i].1)
  {
    assert records[..i + 1][..i] == records[..i];
  }

  /** Filing a specimen changes only what is filed under its box and record. */
  lemma FileUnderGet(groups: Assoc<Assoc<Row>>, record: string, row: Row, b: string, r: string)
    ensures NestedGet(FileUnder(groups, record, row), b, r) ==
      if b == BoxKey(row) && r == record then Some(row) else NestedGet(groups, b, r)
  {
    var k := BoxKey(row);
    var inner := Get(groups, k).GetOr([]);
    if b == k {
      if r != record {
        GetAfterPut(inner, record, row, r);
      }
    } else {
      GetAfterPut(groups, k, Put(inner, record, row), b);
    }
  }

  /** Each specimen of `data` is filed under its own box and under no other. */
  lemma {:induction false} GroupedGet(data: Assoc<Row>, b: string, r: string)
    requires DistinctKeys(data)
    ensures NestedGet(Grouped(data), b, r) ==
      match Get(data, r)
      case Some(row) => if BoxKey(row) == b then Some(row) else None
      case None => None
    decreases |data|
  {
    if |data| > 0 {
      var init := data[..|data| - 1];
      var last := data[|data| - 1];
      assert data == init + [last];
      assert DistinctKeys(init);
      assert last.0 !in KeysOf(init) by {
        forall i | 0 <= i < |init|
          ensures KeysOf(init)[i] != last.0
        {
          assert init[i] == data[i];
        }
      }
      GroupedGet(init, b, r);
      FileUnderGet(Grouped(init), last.0, last.1, b, r);
      GetAppend(init, last.0, last.1, r);
    }
  }

  /**
   * A specimen is filed under box `b` exactly when it is stored with a box id among the
   * requested ones and its row names `b`; it is filed with its whole row.
   */
  lemma SpecimensForBoxesGrouping(t: Tables, sp: ProjectMeta, boxIds: seq<string>, b: string, r: string)
    ensures NestedGet(SpecimensForBoxes(t, sp, boxIds), b, r) ==
      var row := RowOf(t, sp.id, r, sp.Names());
      if RecordExists(t, sp.id, r) && InBoxes(t, sp, boxIds, r) && BoxKey(row) == b then Some(row) else None
    ensures "box_record_id" in sp.Names() ==>
      BoxKey(RowOf(t, sp.id, r, sp.Names())) == Value(t, sp.id, r, "box_record_id")
  {
    var cands := Candidates(t, sp, boxIds);
    if "box_record_id" in sp.Names() {
      GetRowOf(t, sp.id, r, sp.Names(), "box_record_id");
    }
    if cands != [] {
      var data := GetData(t, sp.id, cands, sp.Names());
      BoxesSelected(t, sp, cands, r);
      GroupedGet(data, b, r);
    } else {
      assert !(RecordExists(t, sp.id, r) && InBoxes(t, sp, boxIds, r)) by {
        assert r !in cands;
      }
    }
  }

  // ---------------------------------------------------------------- reading one specimen

  /** The specimen a record id names: none for a non-numeric id or a missing record. */
  function SpecimenOf(t: Tables, sp: ProjectMeta, id: string): Option<Row> {
    if !IsNumericStr(id) then None else Get(GetData(t, sp.id, [id], sp.Names()), id)
  }

  /** A specimen is found exactly when its id is numeric and its record exists; it is the record's row. */
  lemma SpecimenFound(t: Tables, sp: ProjectMeta, id: string)
    ensures SpecimenOf(t, sp, id).Some? <==> IsNumericStr(id) && RecordExists(t, sp.id, id)
    ensures SpecimenOf(t, sp, id).Some? ==> SpecimenOf(t, sp, id).value == RowOf(t, sp.id, id, sp.Names())
  {
    BoxesSelected(t, sp, [id], id);
  }

  /** `handleGetSpecimen`: the specimen, or the invalid-id error. */
  function HandleGetSpecimen(t: Tables, sp: ProjectMeta, id: string): (r: Result<Option<Row>>)
    ensures r.Err? <==> !IsNumericStr(id)
    ensures r.Err? ==> r.errors == [InvalidRecordId]
    ensures r.Ok? ==> (r.value.Some? <==> RecordExists(t, sp.id, id))
    ensures r.Ok? && r.value.Some? ==> r.value.value == RowOf(t, sp.id, id, sp.Names())
  {
    SpecimenFound(t, sp, id);
    if !IsNumericStr(id) then Err([InvalidRecordId]) else Ok(SpecimenOf(t, sp, id))
  }

  // ---------------------------------------------------------------- the specimen search

  /**
   * The database's `REGEXP`: whether a value matches a pattern, and the error the database
   * raises for a pattern it cannot compile (an unbalanced ')', or syntax its engine lacks).
   */
  datatype SqlRegexp = SqlRegexp(matches: (string, string) -> bool, rejects: string -> Option<string>)

  /** The condition on `specimen_name`: equality with the search (under the column's collation), or a derived pattern. */
  datatype Condition = Equals(value: string) | Regexp(pattern: string)

  predicate Meets(c: Condition, coll: Collation, regexp: SqlRegexp, v: string) {
    match c
    case Equals(x) => SqlEq(coll, v, x)
    case Regexp(p) => regexp.matches(v, p)
  }

  /** The error the search query raises: none for an equality, the database's error for a rejected pattern. */
  function QueryError(c: Condition, regexp: SqlRegexp): Option<string> {
    match c
    case Equals(_) => None
    case Regexp(p) => regexp.rejects(p)
  }

  /** The `matchPrefill` extra of the `specimen_name` field, if that field is configured. */
  function PrefillOf(state: State): Option<MatchPrefill> {
    match Get(state.fields.specimen, "specimen_name")
    case None => None
    case Some(fc) => fc.extras.matchPrefill
  }

  predicate PrefillEnabled(mp: Option<MatchPrefill>) {
    mp.Some? && mp.value.enabled == Bool(true)
  }

  predicate PrefillComplete(mp: Option<MatchPrefill>) {
    PrefillEnabled(mp) && mp.value.groups != [] && mp.value.fields != []
  }

  /** The search condition and the warnings about it. */
  function SearchCondition(state: State, parsed: Matches, search: string, regex: string): (Condition, seq<string>) {
    var mp := PrefillOf(state);
    if PrefillComplete(mp) then (Regexp(DerivePattern(mp.value.groups, parsed, regex)), [])
    else if PrefillEnabled(mp) then (Equals(search), [IncompletePrefill])
    else (Equals(search), [])
  }

  /** One row of the search query: a specimen record and its name. */
  datatype Hit = Hit(record: string, name: string)

  /** Whether a specimen has a name and a box, and its name meets the condition. */
  predicate Matching(t: Tables, sp: ProjectMeta, c: Condition, coll: Collation, regexp: SqlRegexp, r: string) {
    && HasCell(t, sp.id, r, "specimen_name")
    && HasCell(t, sp.id, r, "box_record_id")
    && Meets(c, coll, regexp, Value(t, sp.id, r, "specimen_name"))
  }

  function HitsIn(t: Tables, sp: ProjectMeta, c: Condition, coll: Collation, regexp: SqlRegexp, rs: seq<string>): (hs: seq<Hit>)
    ensures forall h :: h in hs <==>
      h.record in rs && Matching(t, sp, c, coll, regexp, h.record) && h.name == Value(t, sp.id, h.record, "specimen_name")
  {
    if |rs| == 0 then []
    else
      var rest := HitsIn(t, sp, c, coll, regexp, rs[1..]);
      if Matching(t, sp, c, coll, regexp, rs[0]) then [Hit(rs[0], Value(t, sp.id, rs[0], "specimen_name"))] + rest
      else rest
  }

  /** The rows of the search query, in listing order. */
  function Hits(t: Tables, sp: ProjectMeta, c: Condition, coll: Collation, regexp: SqlRegexp): seq<Hit> {
    HitsIn(t, sp, c, coll, regexp, Listed(t, sp.id))
  }

  /** `$tmp[name] = record` for each row in turn. */
  function NameIndex(hs: seq<Hit>): Assoc<string>
    decreases |hs|
  {
    if |hs| == 0 then []
    else
      var last := hs[|hs| - 1];
      Put(NameIndex(hs[..|hs| - 1]), last.name, last.record)
  }

  /** The record of the last row carrying `name`: the one a later row overwrites an earlier with. */
  function LastRecord(hs: seq<Hit>, name: string): (r: Option<string>)
    ensures r.Some? <==> exists i :: 0 <= i < |hs| && hs[i].name == name
    ensures r.Some? ==> Hit(r.value, name) in hs
    decreases |hs|
  {
    if |hs| == 0 then None
    else
      var last := hs[|hs| - 1];
      var init := hs[..|hs| - 1];
      assert forall i :: 0 <= i < |init| ==> init[i] == hs[i];
      if last.name == name then Some(last.record) else LastRecord(init, name)
  }

  /** Looking a name up in the index gives the record of its last row. */
  lemma {:induction false} IndexLastWins(hs: seq<Hit>, name: string)
    ensures Get(NameIndex(hs), name) == LastRecord(hs, name)
    decreases |hs|
  {
    if |hs| > 0 {
      var last := hs[|hs| - 1];
      IndexLastWins(hs[..|hs| - 1], name);
      if last.name != name {
        GetAfterPut(NameIndex(hs[..|hs| - 1]), last.name, last.record, name);
      }
    }
  }

  /** The index's first entry is the name of the first row. */
  lemma {:induction false} IndexFirst(hs: seq<Hit>)
    requires |hs| > 0
    ensures |NameIndex(hs)| > 0 && NameIndex(hs)[0].0 == hs[0].name
    decreases |hs|
  {
    var init := hs[..|hs| - 1];
    var last := hs[|hs| - 1];
    var idx := NameIndex(init);
    if |init| > 0 {
      IndexFirst(init);
      assert init[0] == hs[0];
      var r := Put(idx, last.name, last.record);
      if last.name in KeysOf(idx) {
        assert KeysOf(r)[0] == KeysOf(idx)[0];
      }
    }
  }

  datatype MatchType = Exact | Partial | NoMatch

  /** Exact when the search is a name in the index, else partial (the first entry) when there are rows. */
  function Classify(index: Assoc<string>, search: string): (MatchType, Option<string>) {
    if search in KeysOf(index) then (Exact, Get(index, search))
    else if |index| > 0 then (Partial, Some(index[0].1))
    else (NoMatch, None)
  }

  /**
   * The classification in terms of the query's rows: exact when some row carries the searched
   * name (the last such row's record is chosen), partial when there are other rows (the record
   * of the last row sharing the first row's name), none otherwise.
   */
  lemma ClassifyHits(hs: seq<Hit>, search: string)
    ensures Classify(NameIndex(hs), search) ==
      if exists i :: 0 <= i < |hs| && hs[i].name == search then (Exact, LastRecord(hs, search))
      else if |hs| > 0 then (Partial, LastRecord(hs, hs[0].name))
      else (NoMatch, None)
  {
    var index := NameIndex(hs);
    IndexLastWins(hs, search);
    if |hs| > 0 {
      IndexFirst(hs);
      IndexLastWins(hs, hs[0].name);
      assert Get(index, index[0].0) == Some(index[0].1) by {
        assert KeyIndex(index, index[0].0) == Some(0);
      }
      assert LastRecord(hs, hs[0].name).Some?;
    } else {
      assert index == [];
    }
  }

  /** What a search fetches for the chosen record: the specimen and the box it names. */
  datatype Fetched = Fetched(specimen: Option<Row>, box: Option<Row>)

  /** The fetch happens only for a non-empty numeric record id. */
  function FetchFor(t: Tables, sp: ProjectMeta, box: ProjectMeta, chosen: Option<string>): Option<Fetched> {
    if chosen.Some? && !EmptyStr(chosen.value) && IsNumericStr(chosen.value) then
      var specimen := SpecimenOf(t, sp, chosen.value);
      var boxId := match specimen case Some(row) => BoxKey(row) case None => "";
      Some(Fetched(specimen, BoxOf(t, box, boxId)))
    else None
  }

  /** A fetched specimen is its record's row, and the box is the one its `box_record_id` names. */
  lemma FetchChosen(t: Tables, sp: ProjectMeta, box: ProjectMeta, c: string)
    requires RecordExists(t, sp.id, c) && !EmptyStr(c) && IsNumericStr(c)
    requires "box_record_id" in sp.Names()
    ensures FetchFor(t, sp, box, Some(c)) ==
      Some(Fetched(Some(RowOf(t, sp.id, c, sp.Names())), BoxOf(t, box, Value(t, sp.id, c, "box_record_id"))))
  {
    SpecimenFound(t, sp, c);
    GetRowOf(t, sp.id, c, sp.Names(), "box_record_id");
  }

  /** The search response; `parsed` and `matchType` are set once the search has started. */
  datatype SearchResponse = SearchResponse(
    errors: seq<string>,
    warnings: seq<string>,
    parsed: Option<Matches>,
    matchType: Option<MatchType>,
    fetched: Option<Fetched>)

  /** `handleSearchSpecimen`, with the module configuration as read (or its errors). */
  function SearchSpecimen(t: Tables, sp: ProjectMeta, box: ProjectMeta, config: Result<ModuleConfigView>,
                          preg: Preg, coll: Collation, regexp: SqlRegexp, search: string): (r: SearchResponse)
    // an empty search is refused before the configuration is read
    ensures EmptyStr(search) ==> r.errors == [NoSearchValue] && r.matchType.None? && r.fetched.None?
    ensures !EmptyStr(search) && config.Err? ==> r.errors == config.errors && r.matchType.None? && r.fetched.None?
    // once the configuration is read the name is parsed; a match type is set exactly when the query ran
    ensures !EmptyStr(search) && config.Ok? ==> r.parsed.Some? && (r.matchType.Some? <==> r.errors == [])
    // a record is fetched only when the search matched something
    ensures r.fetched.Some? ==> r.matchType.Some? && r.matchType.value != NoMatch
  {
    if EmptyStr(search) then SearchResponse([NoSearchValue], [], None, None, None)
    else match config
      case Err(e) => SearchResponse(e, [], None, None, None)
      case Ok(view) =>
        var regex := ToStr(view.state.general.specimenNameRegex);
        var parsed := ParseName(preg, search, regex);
        var cw := SearchCondition(view.state, parsed, search, regex);
        match QueryError(cw.0, regexp)
        case Some(message) => SearchResponse([message], cw.1, Some(parsed), None, None)
        case None =>
          var mc := Classify(NameIndex(Hits(t, sp, cw.0, coll, regexp)), search);
          SearchResponse([], cw.1, Some(parsed), Some(mc.0), FetchFor(t, sp, box, mc.1))
  }

  method HandleSearchSpecimen(t: Tables, sp: ProjectMeta, box: ProjectMeta, config: Result<ModuleConfigView>,
                              preg: Preg, coll: Collation, regexp: SqlRegexp, search: string) returns (r: SearchResponse)
    ensures r == SearchSpecimen(t, sp, box, config, preg, coll, regexp, search)
  {
    if EmptyStr(search) {
      return SearchResponse([NoSearchValue], [], None, None, None);
    }
    if config.Err? {
      return SearchResponse(config.errors, [], None, None, None);
    }
    var state := config.value.state;
    var regex := ToStr(state.general.specimenNameRegex);
    var parsed := ParseName(preg, search, regex);
    var condition, warnings := SearchConditionOf(state, parsed, search, regex);
    var error := QueryError(condition, regexp);
    if error.Some? {
      return SearchResponse([error.value], warnings, Some(parsed), None, None);
    }
    var hits := Hits(t, sp, condition, coll, regexp);
    var index := NameIndexOf(hits);
    var mc := Classify(index, search);
    r := SearchResponse([], warnings, Some(parsed), Some(mc.0), FetchFor(t, sp, box, mc.1));
  }

  /** The query condition and the warnings of a search, as the configured pre-fill decides them. */
  method SearchConditionOf(state: State, parsed: Matches, search: string, regex: string)
    returns (condition: Condition, warnings: seq<string>)
    ensures (condition, warnings) == SearchCondition(state, parsed, search, regex)
  {
    condition := Equals(search);
    warnings := [];
    var mp := PrefillOf(state);
    if PrefillEnabled(mp) {
      if mp.value.groups != [] && mp.value.fields != [] {
        var rewrites := BuildRewrites(mp.value.groups, parsed);
        condition := Regexp(ApplyAllText(rewrites, regex));
      } else {
        warnings := [IncompletePrefill];
      }
    }
  }

  /** The name-to-record index of the query's rows, a later row of the same name overwriting an earlier one. */
  method NameIndexOf(hits: seq<Hit>) returns (index: Assoc<string>)
    ensures index == NameIndex(hits)
  {
    index := [];
    for i := 0 to |hits|
      invariant index == NameIndex(hits[..i])
    {
      assert hits[..i + 1][..i] == hits[..i];
      index := Put(index, hits[i].name, hits[i].record);
    }
    assert hits[..|hits|] == hits;
  }

  /**
   * The search's condition: an empty search is refused; with pre-fill enabled and configured
   * the name must match the specimen pattern with the search's parsed groups filled in;
   * enabled but incomplete it warns and falls back to the exact name.
   */
  lemma SearchConditionRule(t: Tables, sp: ProjectMeta, box: ProjectMeta, config: Result<ModuleConfigView>,
                            preg: Preg, coll: Collation, regexp: SqlRegexp, search: string)
    ensures var r := SearchSpecimen(t, sp, box, config, preg, coll, regexp, search);
      && (EmptyStr(search) ==> r.errors == [NoSearchValue] && r.matchType.None? && r.fetched.None?)
      && (!EmptyStr(search) && config.Ok? ==>
            var mp := PrefillOf(config.value.state);
            var regex := ToStr(config.value.state.general.specimenNameRegex);
            var parsed := ParseName(preg, search, regex);
            var c := SearchCondition(config.value.state, parsed, search, regex).0;
            && r.errors == (if QueryError(c, regexp).Some? then [QueryError(c, regexp).value] else [])
            && (r.matchType.None? <==> QueryError(c, regexp).Some?)
            && (!PrefillComplete(mp) ==> r.errors == [] && r.matchType.Some?)
            && r.parsed == Some(parsed)
            && (r.warnings != [] <==> PrefillEnabled(mp) && !PrefillComplete(mp))
            && SearchCondition(config.value.state, parsed, search, regex).0 ==
                 if PrefillComplete(mp) then Regexp(DerivePattern(mp.value.groups, parsed, regex)) else Equals(search))
  {
  }

  /** The match type and the fetch of a search, in terms of the specimens its condition selects. */
  lemma SearchOutcome(t: Tables, sp: ProjectMeta, box: ProjectMeta, view: ModuleConfigView,
                      preg: Preg, coll: Collation, regexp: SqlRegexp, search: string)
    requires !EmptyStr(search)
    ensures var regex := ToStr(view.state.general.specimenNameRegex);
      var c := SearchCondition(view.state, ParseName(preg, search, regex), search, regex).0;
      var hs := Hits(t, sp, c, coll, regexp);
      var r := SearchSpecimen(t, sp, box, Ok(view), preg, coll, regexp, search);
      && (QueryError(c, regexp).Some? ==>
            r.errors == [QueryError(c, regexp).value] && r.matchType.None? && r.fetched.None?)
      && (QueryError(c, regexp).None? ==>
            && (r.matchType == Some(Exact) <==> exists i :: 0 <= i < |hs| && hs[i].name == search)
            && (r.matchType == Some(NoMatch) <==> hs == [])
            && (r.matchType == Some(Exact) ==> r.fetched == FetchFor(t, sp, box, LastRecord(hs, search)))
            && (r.matchType == Some(Partial) ==> r.fetched == FetchFor(t, sp, box, LastRecord(hs, hs[0].name)))
            && (r.matchType == Some(NoMatch) ==> r.fetched.None?))
  {
    var regex := ToStr(view.state.general.specimenNameRegex);
    var c := SearchCondition(view.state, ParseName(preg, search, regex), search, regex).0;
    ClassifyHits(Hits(t, sp, c, coll, regexp), search);
  }

  /** A chosen record is a listed specimen whose name meets the condition. */
  lemma ChosenIsHit(t: Tables, sp: ProjectMeta, c: Condition, coll: Collation, regexp: SqlRegexp, name: string)
    ensures var chosen := LastRecord(Hits(t, sp, c, coll, regexp), name);
      chosen.Some? ==>
        && RecordExists(t, sp.id, chosen.value)
        && Matching(t, sp, c, coll, regexp, chosen.value)
        && Value(t, sp.id, chosen.value, "specimen_name") == name
  {
  }

  /**
   * The query's `=` follows the column's collation while the index lookup compares bytes: a
   * single specimen whose name differs from the search only where the collation does not
   * look is found, but as a partial match.
   */
  lemma CollatedVariantIsPartial(t: Tables, sp: ProjectMeta, coll: Collation, regexp: SqlRegexp,
                                 search: string, r: string)
    requires Listed(t, sp.id) == [r]
    requires HasCell(t, sp.id, r, "specimen_name") && HasCell(t, sp.id, r, "box_record_id")
    requires SqlEq(coll, Value(t, sp.id, r, "specimen_name"), search)
    requires Value(t, sp.id, r, "specimen_name") != search
    ensures Hits(t, sp, Equals(search), coll, regexp) == [Hit(r, Value(t, sp.id, r, "specimen_name"))]
    ensures Classify(NameIndex(Hits(t, sp, Equals(search), coll, regexp)), search) == (Partial, Some(r))
  {
    var hs := Hits(t, sp, Equals(search), coll, regexp);
    assert Listed(t, sp.id)[1..] == [];
    ClassifyHits(hs, search);
  }

  // ---------------------------------------------------------------- saving a specimen

  /** The name of the first form's completion field. */
  function FormComplete(sp: ProjectMeta): string {
    sp.firstForm + "_complete"
  }

  /** A specimen with a record id (a reserved one when it had none) and a completion status. */
  function PreparedSpecimen(t: Tables, sp: ProjectMeta, specimen: Assoc<string>): Assoc<string> {
    var id := Get(specimen, "record_id");
    var withId := if id.None? || EmptyStr(id.value) then Put(specimen, "record_id", NextRecordId(t, sp.id)) else specimen;
    if FormComplete(sp) in KeysOf(withId) then withId else Put(withId, FormComplete(sp), "0")
  }

  function RecordIdOf(prepared: Assoc<string>): string {
    Get(prepared, "record_id").GetOr("")
  }

  /** The part of a prepared specimen that is saved: the project's own fields. */
  function SaveRow(sp: ProjectMeta, prepared: Assoc<string>): Row {
    IntersectKeys(prepared, set f | f in sp.Names())
  }

  /**
   * A prepared specimen keeps a non-empty record id it was given, or gets a new one that no
   * record has; it keeps a completion status it had, or gets "0"; every other entry is kept.
   */
  lemma PreparedSpecimenShape(t: Tables, sp: ProjectMeta, specimen: Assoc<string>, k: string)
    requires DistinctKeys(specimen)
    requires FormComplete(sp) != "record_id"
    ensures var p := PreparedSpecimen(t, sp, specimen);
      var given := Get(specimen, "record_id");
      && DistinctKeys(p)
      && Get(p, "record_id").Some? && !EmptyStr(RecordIdOf(p))
      && (given.Some? && !EmptyStr(given.value) ==> RecordIdOf(p) == given.value)
      && (given.None? || EmptyStr(given.value) ==>
            RecordIdOf(p) == NextRecordId(t, sp.id) && !RecordExists(t, sp.id, RecordIdOf(p)))
      && Get(p, FormComplete(sp)) == Some(Get(specimen, FormComplete(sp)).GetOr("0"))
      && (k != "record_id" && k != FormComplete(sp) ==> Get(p, k) == Get(specimen, k))
  {
    var id := Get(specimen, "record_id");
    var fc := FormComplete(sp);
    var withId := if id.None? || EmptyStr(id.value) then Put(specimen, "record_id", NextRecordId(t, sp.id)) else specimen;
    var p := PreparedSpecimen(t, sp, specimen);
    if id.None? || EmptyStr(id.value) {
      PutKeepsDistinct(specimen, "record_id", NextRecordId(t, sp.id));
      NextRecordIdIsNew(t, sp.id);
      GetAfterPut(specimen, "record_id", NextRecordId(t, sp.id), fc);
      if k != "record_id" {
        GetAfterPut(specimen, "record_id", NextRecordId(t, sp.id), k);
      }
    }
    assert Get(withId, fc) == Get(specimen, fc);
    if fc !in KeysOf(withId) {
      PutKeepsDistinct(withId, fc, "0");
      GetAfterPut(withId, fc, "0", "record_id");
      if k != fc {
        GetAfterPut(withId, fc, "0", k);
      }
    }
  }

  /**
   * A successful save stores each of the project's fields the prepared specimen carries under
   * its record id, and leaves the other fields of that record as they were.
   */
  lemma SavedSpecimenReadsBack(t: Tables, sp: ProjectMeta, specimen: Assoc<string>, f: string)
    requires DistinctKeys(specimen)
    ensures var p := PreparedSpecimen(t, sp, specimen);
      var t' := Write(t, sp.id, [(RecordIdOf(p), SaveRow(sp, p))]);
      && RecordExists(t', sp.id, RecordIdOf(p))
      && (f in sp.Names() && f in KeysOf(p) ==> Value(t', sp.id, RecordIdOf(p), f) == Get(p, f).value)
      && (f !in sp.Names() ==> Value(t', sp.id, RecordIdOf(p), f) == Value(t, sp.id, RecordIdOf(p), f))
  {
    var p := PreparedSpecimen(t, sp, specimen);
    var keys := set x | x in sp.Names();
    PreparedDistinct(t, sp, specimen);
    IntersectGet(p, keys, f);
    WriteOne(t, sp.id, RecordIdOf(p), SaveRow(sp, p), sp.id, RecordIdOf(p), f);
  }

  lemma PreparedDistinct(t: Tables, sp: ProjectMeta, specimen: Assoc<string>)
    requires DistinctKeys(specimen)
    ensures DistinctKeys(PreparedSpecimen(t, sp, specimen))
  {
    var id := Get(specimen, "record_id");
    var withId := if id.None? || EmptyStr(id.value) then Put(specimen, "record_id", NextRecordId(t, sp.id)) else specimen;
    if id.None? || EmptyStr(id.value) {
      PutKeepsDistinct(specimen, "record_id", NextRecordId(t, sp.id));
    }
    if FormComplete(sp) !in KeysOf(withId) {
      PutKeepsDistinct(withId, FormComplete(sp), "0");
    }
  }

  /**
   * `handleSaveSpecimen`: an empty specimen is refused; otherwise the prepared specimen's
   * project fields are saved under its record id, and the prepared specimen is the answer,
   * unless the host reports errors, which are passed on and nothing is saved.
   */
  method HandleSaveSpecimen(store: Store, sp: ProjectMeta, specimen: Assoc<string>, hostErrors: seq<string>)
    returns (r: Result<Assoc<string>>)
    modifies store
    ensures |specimen| == 0 ==> r == Err([NoSpecimenValue]) && store.tables == old(store.tables)
    ensures |specimen| > 0 ==>
      var p := PreparedSpecimen(old(store.tables), sp, specimen);
      && (hostErrors == [] ==>
            r == Ok(p) && store.tables == Write(old(store.tables), sp.id, [(RecordIdOf(p), SaveRow(sp, p))]))
      && (hostErrors != [] ==> r == Err(hostErrors) && store.tables == old(store.tables))
  {
    if |specimen| == 0 {
      return Err([NoSpecimenValue]);
    }
    var prepared := PreparedSpecimen(store.tables, sp, specimen);
    var errors := store.SaveData(sp.id, [(RecordIdOf(prepared), SaveRow(sp, prepared))], hostErrors);
    if errors != [] {
      r := Err(errors);
    } else {
      r := Ok(prepared);
    }
  }

  // ---------------------------------------------------------------- deleting a specimen

  /**
   * `handleDeleteSpecimen`: a non-numeric id is refused; a record the host cannot delete
   * gives the delete error; otherwise the record is gone.
   */
  method HandleDeleteSpecimen(store: Store, sp: ProjectMeta, id: string) returns (r: Outcome)
    modifies store
    ensures r.Pass? <==> IsNumericStr(id) && RecordExists(old(store.tables), sp.id, id)
    ensures !IsNumericStr(id) ==> r == Fail([InvalidRecordId])
    ensures IsNumericStr(id) && !RecordExists(old(store.tables), sp.id, id) ==> r == Fail([DeleteFailed])
    ensures r.Fail? ==> store.tables == old(store.tables)
    ensures r.Pass? ==> store.tables == Delete(old(store.tables), sp.id, id) && !RecordExists(store.tables, sp.id, id)
  {
    if !IsNumericStr(id) {
      return Fail([InvalidRecordId]);
    }
    var deleted := store.DeleteRecord(sp.id, id);
    if !deleted {
      r := Fail([DeleteFailed]);
    } else {
      DeleteRemoves(old(store.tables), sp.id, id, "record_id");
      r := Pass;
    }
  }

  // ---------------------------------------------------------------- the box view

  /** The box view: the box's row (empty when none is shown) and, for a shown box, its specimens. */
  datatype BoxView = BoxView(box: Row, specimens: Option<seq<Row>>)

  /** `handleGetBox`: a box and its specimens are shown only for a non-empty numeric id of a box with data. */
  function HandleGetBox(t: Tables, box: ProjectMeta, sp: ProjectMeta, id: Option<string>): (v: BoxView)
    ensures v.specimens.None? ==> v.box == []
    ensures v.specimens.Some? ==> id.Some? && !EmptyStr(id.value) && IsNumericStr(id.value) && v.box != []
    ensures v.specimens.Some? ==> |v.specimens.value| == |BoxSpecimenRecords(t, sp, id.value)|
  {
    if id.Some? && !EmptyStr(id.value) && IsNumericStr(id.value) then
      var b := BoxOf(t, box, id.value);
      if b.Some? && b.value != [] then BoxView(b.value, Some(SpecimensForBox(t, sp, id.value)))
      else BoxView([], None)
    else BoxView([], None)
  }

  /**
   * A box is shown exactly when its id is a non-empty number, its record exists and the Box
   * project has fields; it is shown with its own row and the specimens stored in it.
   */
  lemma BoxViewShown(t: Tables, box: ProjectMeta, sp: ProjectMeta, id: Option<string>)
    ensures var v := HandleGetBox(t, box, sp, id);
      && (v.specimens.Some? <==>
            id.Some? && !EmptyStr(id.value) && IsNumericStr(id.value) && RecordExists(t, box.id, id.value) && box.fields != [])
      && (v.specimens.Some? ==>
            v.box == RowOf(t, box.id, id.value, box.Names()) && v.specimens.value == SpecimensForBox(t, sp, id.value))
      && (v.specimens.None? ==> v.box == [])
  {
    if id.Some? {
      BoxFound(t, box, id.value);
      var row := RowOf(t, box.id, id.value, box.Names());
      assert |row| == |box.Names()| == |box.fields|;
    }
  }
}
