/**
 * The host platform's record store as the plugin sees it: each project's data dictionary,
 * and an entity-attribute-value table of (project, record, field) cells with the order in
 * which the host lists each project's records. Reads are `getData`-style selections;
 * writes are `saveData` in overwrite mode and `deleteRecord`.
 */
module RecordStore {
  import opened Wrappers
  import opened Php

  /** One field of a project's data dictionary. */
  datatype FieldMeta = FieldMeta(
    name: string,
    form: string,
    /** The dictionary's element type: text, select, radio, checkbox, yesno, sql, calc, ... */
    elementType: string,
    /**
     * The type the code reads through `getFieldMetadata`, e.g. "text" or "datetime". The module
     * does not define that method, so the model takes the type as part of the dictionary.
     */
    fieldType: string,
    fieldLabel: string,
    /** The text validation type, "" when the field has none. */
    validation: string,
    /** The raw choice string, e.g. "1, Yes | 0, No". */
    choices: string)

  /** A project as the host describes it: its id, fields in dictionary order and first form. */
  datatype ProjectMeta = ProjectMeta(id: string, fields: seq<FieldMeta>, firstForm: string, tablePk: string)
  {
    /** Whether `field` is the completion-status field "<form>_complete" of one of its forms. */
    predicate IsFormStatus(field: string) {
      exists i :: 0 <= i < |fields| && field == fields[i].form + "_complete"
    }

    function Names(): (ns: seq<string>)
      ensures |ns| == |fields| && forall i :: 0 <= i < |fields| ==> ns[i] == fields[i].name
    {
      seq(|fields|, i requires 0 <= i < |fields| => fields[i].name)
    }

    /** The dictionary entry of `field`, if the project has one. */
    function Lookup(field: string): (r: Option<FieldMeta>)
      ensures r.Some? <==> field in Names()
      ensures r.Some? ==> r.value in fields && r.value.name == field
    {
      LookupIn(fields, field)
    }
  }

  function LookupIn(fields: seq<FieldMeta>, field: string): (r: Option<FieldMeta>)
    ensures r.Some? <==> exists i :: 0 <= i < |fields| && fields[i].name == field
    ensures r.Some? ==> r.value in fields && r.value.name == field
  {
    if |fields| == 0 then None
    else if fields[0].name == field then Some(fields[0])
    else
      var r := LookupIn(fields[1..], field);
      assert forall i :: 1 <= i < |fields| ==> fields[i] == fields[1..][i - 1];
      r
  }

  /** One cell of the entity-attribute-value table. */
  datatype Cell = Cell(project: string, record: string, field: string)

  /** A record's values, keyed by field name. */
  type Row = Assoc<string>

  /** The stored data: the cells, and each project's record names in the host's listing order. */
  datatype Tables = Tables(cells: map<Cell, string>, listing: map<string, seq<string>>)

  /** A project's records in listing order, each once. */
  function Listed(t: Tables, project: string): (rs: seq<string>)
    ensures Distinct(rs)
  {
    if project in t.listing then Unique(t.listing[project]) else []
  }

  predicate RecordExists(t: Tables, project: string, record: string) {
    record in Listed(t, project)
  }

  /** The stored value of a cell; a field without data reads as "". */
  function Value(t: Tables, project: string, record: string, field: string): string {
    var c := Cell(project, record, field);
    if c in t.cells then t.cells[c] else ""
  }

  /** A record's values for the requested fields, in the requested order. */
  function RowOf(t: Tables, project: string, record: string, fields: seq<string>): (row: Row)
    ensures KeysOf(row) == fields
    ensures forall i :: 0 <= i < |row| ==> row[i].1 == Value(t, project, record, fields[i])
  {
    seq(|fields|, i requires 0 <= i < |fields| => (fields[i], Value(t, project, record, fields[i])))
  }

  /** A row read for a list of fields holds each listed field's stored value. */
  lemma GetRowOf(t: Tables, project: string, record: string, fields: seq<string>, f: string)
    requires f in fields
    ensures Get(RowOf(t, project, record, fields), f) == Some(Value(t, project, record, f))
  {
    var row := RowOf(t, project, record, fields);
    assert f in KeysOf(row);
    var v := Get(row, f).value;
    var i :| 0 <= i < |row| && row[i] == (f, v);
  }

  /** The members of `rs` that are also in `wanted`, in the order of `rs`. */
  function Keep(rs: seq<string>, wanted: seq<string>): (r: seq<string>)
    ensures forall x :: x in r <==> x in rs && x in wanted
    ensures |r| <= |rs|
    ensures Distinct(rs) ==> Distinct(r)
  {
    if |rs| == 0 then []
    else if rs[0] in wanted then [rs[0]] + Keep(rs[1..], wanted)
    else Keep(rs[1..], wanted)
  }

  /**
   * The records a `getData` call returns: every listed record when no records are named
   * (an empty record list means "all records"), otherwise the named records that exist.
   */
  function Selected(t: Tables, project: string, records: seq<string>): (r: seq<string>)
    ensures records == [] ==> r == Listed(t, project)
    ensures records != [] ==> forall x :: x in r <==> RecordExists(t, project, x) && x in records
    ensures Distinct(r)
  {
    if records == [] then Listed(t, project) else Keep(Listed(t, project), records)
  }

  /** `getData` for the first event: each selected record with its requested fields. */
  function GetData(t: Tables, project: string, records: seq<string>, fields: seq<string>): (r: Assoc<Row>)
    ensures KeysOf(r) == Selected(t, project, records)
    ensures DistinctKeys(r)
    ensures forall i :: 0 <= i < |r| ==> r[i].1 == RowOf(t, project, r[i].0, fields)
  {
    var sel := Selected(t, project, records);
    seq(|sel|, i requires 0 <= i < |sel| => (sel[i], RowOf(t, project, sel[i], fields)))
  }

  /** A `getData` result holds a record exactly when it is selected, and then with its requested fields. */
  lemma GetDataGet(t: Tables, project: string, records: seq<string>, fields: seq<string>, r: string)
    ensures var data := GetData(t, project, records, fields);
      && (r in KeysOf(data) <==> RecordExists(t, project, r) && (records == [] || r in records))
      && Get(data, r) == if r in KeysOf(data) then Some(RowOf(t, project, r, fields)) else None
  {
    var data := GetData(t, project, records, fields);
    if r in KeysOf(data) {
      var i := KeyIndex(data, r).value;
      assert Get(data, r) == Some(data[i].1);
    }
  }

  /** The listed records whose `field` holds `value`: a `[field] = value` filter. */
  function Where(t: Tables, project: string, field: string, value: string): (r: seq<string>)
    ensures forall x :: x in r <==> RecordExists(t, project, x) && Value(t, project, x, field) == value
    ensures Distinct(r)
  {
    WhereIn(t, project, Listed(t, project), field, value)
  }

  function WhereIn(t: Tables, project: string, rs: seq<string>, field: string, value: string): (r: seq<string>)
    ensures forall x :: x in r <==> x in rs && Value(t, project, x, field) == value
    ensures |r| <= |rs|
    ensures Distinct(rs) ==> Distinct(r)
  {
    if |rs| == 0 then []
    else if Value(t, project, rs[0], field) == value then [rs[0]] + WhereIn(t, project, rs[1..], field, value)
    else WhereIn(t, project, rs[1..], field, value)
  }

  // ---------------------------------------------------------------- query order

  /**
   * The collation of the data table's value column, given by the weights it compares text by
   * (MySQL's `WEIGHT_STRING`): `=` holds when the weights are equal, `ORDER BY` follows their
   * order. A case-insensitive collation weighs a letter and its other case alike, and a
   * padding one ignores trailing spaces.
   */
  type Collation = string -> seq<int>

  /** The binary collation: each character weighs its own code. */
  function Binary(s: string): (w: seq<int>)
    ensures |w| == |s| && forall i :: 0 <= i < |s| ==> w[i] == s[i] as int
  {
    seq(|s|, i requires 0 <= i < |s| => s[i] as int)
  }

  /** Under the binary collation, `=` is plain equality of text. */
  lemma BinaryEquality(a: string, b: string)
    ensures Binary(a) == Binary(b) <==> a == b
  {
    if Binary(a) == Binary(b) {
      assert |a| == |b|;
      forall i | 0 <= i < |a| ensures a[i] == b[i] {
        assert Binary(a)[i] == Binary(b)[i];
      }
    }
  }

  /** A case-insensitive collation, as the database's `_ci` collations are: a letter weighs as its upper case. */
  function FoldCase(s: string): (w: seq<int>)
    ensures |w| == |s|
    ensures forall i :: 0 <= i < |s| && !('a' <= s[i] <= 'z') ==> w[i] == s[i] as int
  {
    seq(|s|, i requires 0 <= i < |s| => if 'a' <= s[i] <= 'z' then s[i] as int - 32 else s[i] as int)
  }

  /** Under a case-insensitive collation two different spellings of a name are equal. */
  lemma CaseVariantsEqual()
    ensures SqlEq(FoldCase, "abc-01", "ABC-01") && "abc-01" != "ABC-01"
  {
    var a, b := FoldCase("abc-01"), FoldCase("ABC-01");
    forall i | 0 <= i < 6 ensures a[i] == b[i] {
      assert a[i] == FoldCase("abc-01")[i];
    }
    assert a == b;
    assert "abc-01"[0] != "ABC-01"[0];
  }

  /** `a = b` in a query: the texts are equal under the column's collation. */
  predicate SqlEq(coll: Collation, a: string, b: string) {
    coll(a) == coll(b)
  }

  /** Lexicographic order of weights. */
  predicate WeightLe(a: seq<int>, b: seq<int>)
    decreases |a|
  {
    |a| == 0 || (|b| > 0 && (a[0] < b[0] || (a[0] == b[0] && WeightLe(a[1..], b[1..]))))
  }

  lemma {:induction false} WeightLeTotal(a: seq<int>, b: seq<int>)
    ensures WeightLe(a, b) || WeightLe(b, a)
    decreases |a|
  {
    if |a| > 0 && |b| > 0 && a[0] == b[0] {
      WeightLeTotal(a[1..], b[1..]);
    }
  }

  /** The order of a column that may be NULL under `ORDER BY`: NULL first, then by weight. */
  predicate KeyLe(coll: Collation, a: Option<string>, b: Option<string>) {
    a.None? || (b.Some? && WeightLe(coll(a.value), coll(b.value)))
  }

  /** A query result row reduced to its record and the column it is ordered by. */
  datatype Keyed = Keyed(record: string, key: Option<string>)

  predicate SortedByKey(coll: Collation, s: seq<Keyed>) {
    forall i :: 0 < i < |s| ==> KeyLe(coll, s[i - 1].key, s[i].key)
  }

  function Insert(coll: Collation, x: Keyed, s: seq<Keyed>): (r: seq<Keyed>)
    requires SortedByKey(coll, s)
    ensures SortedByKey(coll, r)
    ensures multiset(r) == multiset(s) + multiset{x}
    ensures |r| == |s| + 1 && (r[0] == x || (|s| > 0 && r[0] == s[0]))
  {
    if |s| == 0 then [x]
    else if KeyLe(coll, x.key, s[0].key) then [x] + s
    else
      assert KeyLe(coll, s[0].key, x.key) by {
        if x.key.Some? && s[0].key.Some? {
          WeightLeTotal(coll(x.key.value), coll(s[0].key.value));
        }
      }
      var rest := Insert(coll, x, s[1..]);
      assert s == [s[0]] + s[1..];
      [s[0]] + rest
  }

  /** `ORDER BY` on the column: the rows in collation order; rows with equal weights keep no particular order. */
  function SortByKey(coll: Collation, s: seq<Keyed>): (r: seq<Keyed>)
    ensures SortedByKey(coll, r)
    ensures multiset(r) == multiset(s)
  {
    if |s| == 0 then []
    else
      assert s == [s[0]] + s[1..];
      Insert(coll, s[0], SortByKey(coll, s[1..]))
  }

  // ---------------------------------------------------------------- writes

  /** Overwrite-mode writing of one record's values: a blank value erases the cell. */
  function WriteRow(cells: map<Cell, string>, project: string, record: string, row: Row): map<Cell, string>
    decreases |row|
  {
    if |row| == 0 then cells
    else
      var c := Cell(project, record, row[0].0);
      var v := row[0].1;
      WriteRow(if v == "" then cells - {c} else cells[c := v], project, record, row[1..])
  }

  function AddListed(listing: map<string, seq<string>>, project: string, record: string): map<string, seq<string>> {
    var rs := if project in listing then listing[project] else [];
    if record in rs then listing else listing[project := rs + [record]]
  }

  /** `saveData` in overwrite mode: every record of `data` is written in turn. */
  function Write(t: Tables, project: string, data: Assoc<Row>): Tables
    decreases |data|
  {
    if |data| == 0 then t
    else
      var rec := data[0].0;
      var t' := Tables(WriteRow(t.cells, project, rec, data[0].1), AddListed(t.listing, project, rec));
      Write(t', project, data[1..])
  }

  /** `deleteRecord`: the record and all its cells are gone. */
  function Delete(t: Tables, project: string, record: string): Tables {
    var rs := Listed(t, project);
    Tables(
      map c | c in t.cells && !(c.project == project && c.record == record) :: t.cells[c],
      t.listing[project := RemoveAll(rs, record)])
  }

  function RemoveAll(rs: seq<string>, x: string): (r: seq<string>)
    ensures forall y :: y in r <==> y in rs && y != x
  {
    if |rs| == 0 then [] else (if rs[0] == x then [] else [rs[0]]) + RemoveAll(rs[1..], x)
  }

  /** Writing a row leaves every cell outside that record's written fields as it was. */
  lemma {:induction false} WriteRowOther(cells: map<Cell, string>, project: string, record: string, row: Row, c: Cell)
    requires !(c.project == project && c.record == record && c.field in KeysOf(row))
    ensures (c in WriteRow(cells, project, record, row)) == (c in cells)
    ensures c in cells ==> WriteRow(cells, project, record, row)[c] == cells[c]
    decreases |row|
  {
    if |row| > 0 {
      var d := Cell(project, record, row[0].0);
      var v := row[0].1;
      assert KeysOf(row[1..]) == KeysOf(row)[1..];
      WriteRowOther(if v == "" then cells - {d} else cells[d := v], project, record, row[1..], c);
    }
  }

  /** After writing a row with distinct keys, each written field reads back the written value. */
  lemma {:induction false} WriteRowValue(cells: map<Cell, string>, project: string, record: string, row: Row, i: nat)
    requires DistinctKeys(row) && i < |row|
    ensures var c := Cell(project, record, row[i].0);
      var w := WriteRow(cells, project, record, row);
      (if c in w then w[c] else "") == row[i].1
    decreases |row|
  {
    var d := Cell(project, record, row[0].0);
    var v := row[0].1;
    var next := if v == "" then cells - {d} else cells[d := v];
    assert KeysOf(row[1..]) == KeysOf(row)[1..];
    if i == 0 {
      assert row[0].0 !in KeysOf(row[1..]);
      WriteRowOther(next, project, record, row[1..], d);
    } else {
      assert row[1..][i - 1] == row[i];
      WriteRowValue(next, project, record, row[1..], i - 1);
    }
  }

  /** A one-record write changes only that record's written fields, and they read back as written. */
  lemma WriteOne(t: Tables, project: string, record: string, row: Row, p: string, r: string, f: string)
    requires DistinctKeys(row)
    ensures var t' := Write(t, project, [(record, row)]);
      && RecordExists(t', project, record)
      && (p == project && r == record && f in KeysOf(row) ==> Value(t', p, r, f) == Get(row, f).value)
      && (!(p == project && r == record && f in KeysOf(row)) ==> Value(t', p, r, f) == Value(t, p, r, f))
      && (forall x :: RecordExists(t, p, x) ==> RecordExists(t', p, x))
  {
    var t' := Write(t, project, [(record, row)]);
    assert [(record, row)][1..] == [];
    var c := Cell(p, r, f);
    if p == project && r == record && f in KeysOf(row) {
      var i :| 0 <= i < |row| && row[i].0 == f;
      assert (f, row[i].1) in row;
      WriteRowValue(t.cells, project, record, row, i);
      assert Get(row, f).value == row[i].1 by {
        var j := KeyIndex(row, f).value;
        assert row[j].0 == f;
        assert j == i;
      }
    } else {
      WriteRowOther(t.cells, project, record, row, c);
    }
  }

  /** Writing one field with one value into several records sets it there and changes nothing else. */
  lemma {:induction false} WriteField(t: Tables, project: string, data: Assoc<Row>, field: string, v: string,
                                      p: string, r: string, f: string)
    requires forall i :: 0 <= i < |data| ==> data[i].1 == [(field, v)]
    ensures Value(Write(t, project, data), p, r, f) ==
      if p == project && r in KeysOf(data) && f == field then v else Value(t, p, r, f)
    ensures forall x :: RecordExists(t, p, x) ==> RecordExists(Write(t, project, data), p, x)
    decreases |data|
  {
    if |data| > 0 {
      var row := data[0].1;
      var t1 := Write(t, project, [data[0]]);
      WriteFirst(t, project, data);
      assert row == [(field, v)];
      assert KeysOf(row) == [field] && Get(row, field) == Some(v) by {
        assert KeyIndex(row, field) == Some(0);
      }
      WriteOne(t, project, data[0].0, row, p, r, f);
      KeysOfCons(data);
      SameRowsTail(data, [(field, v)]);
      WriteField(t1, project, data[1..], field, v, p, r, f);
    }
  }

  lemma SameRowsTail(data: Assoc<Row>, row: Row)
    requires |data| > 0 && forall i :: 0 <= i < |data| ==> data[i].1 == row
    ensures forall i :: 0 <= i < |data[1..]| ==> data[1..][i].1 == row
  {
    forall i | 0 <= i < |data[1..]| ensures data[1..][i].1 == row {
      assert data[1..][i] == data[i + 1];
    }
  }

  /** Writing several records is writing the first, then the rest. */
  lemma WriteFirst(t: Tables, project: string, data: Assoc<Row>)
    requires |data| > 0
    ensures Write(t, project, data) == Write(Write(t, project, [data[0]]), project, data[1..])
  {
    assert [data[0]][1..] == [];
  }

  /** Writing into one project leaves the record listing of every other project as it was. */
  lemma {:induction false} WriteListing(t: Tables, project: string, data: Assoc<Row>, p: string)
    requires p != project
    ensures Listed(Write(t, project, data), p) == Listed(t, p)
    decreases |data|
  {
    if |data| > 0 {
      var t1 := Tables(WriteRow(t.cells, project, data[0].0, data[0].1), AddListed(t.listing, project, data[0].0));
      assert Listed(t1, p) == Listed(t, p);
      WriteListing(t1, project, data[1..], p);
    }
  }

  /** A filter gives the same records on two stores that agree on the filtered field. */
  lemma {:induction false} WhereInSame(t1: Tables, t2: Tables, project: string, rs: seq<string>, field: string, value: string)
    requires forall x :: x in rs ==> Value(t1, project, x, field) == Value(t2, project, x, field)
    ensures WhereIn(t1, project, rs, field, value) == WhereIn(t2, project, rs, field, value)
    decreases |rs|
  {
    if |rs| > 0 {
      assert rs[0] in rs;
      assert forall x :: x in rs[1..] ==> x in rs;
      WhereInSame(t1, t2, project, rs[1..], field, value);
    }
  }

  /** The largest record number among the canonical decimal names in `rs` (0 when none). */
  function MaxRecordNumber(rs: seq<string>): (m: nat)
    ensures forall i :: 0 <= i < |rs| && DecimalValue(rs[i]).Some? ==> DecimalValue(rs[i]).value <= m
  {
    if |rs| == 0 then 0
    else
      var rest := MaxRecordNumber(rs[1..]);
      assert forall i :: 1 <= i < |rs| ==> rs[i] == rs[1..][i - 1];
      match DecimalValue(rs[0])
      case Some(n) => if n > rest then n else rest
      case None => rest
  }

  /** The record name the host hands out for a new auto-numbered record. */
  function NextRecordId(t: Tables, project: string): string {
    NatToString(MaxRecordNumber(Listed(t, project)) + 1)
  }

  /** A reserved record name is always a new one. */
  lemma NextRecordIdIsNew(t: Tables, project: string)
    ensures !RecordExists(t, project, NextRecordId(t, project))
    ensures IsCanonicalDecimal(NextRecordId(t, project))
    ensures !EmptyStr(NextRecordId(t, project))
  {
    var rs := Listed(t, project);
    var m := MaxRecordNumber(rs);
    DecimalRoundTrip(m + 1, "");
    PositiveNotEmpty(m + 1);
  }

  /**
   * The host's data store. Its saves are overwrite-mode `saveData` calls whose acceptance is
   * decided by the host: `hostErrors` are the errors the host reports for a save (none when
   * it accepts), and a rejected save writes nothing.
   */
  class Store {
    var tables: Tables

    constructor (initial: Tables)
      ensures tables == initial
    {
      tables := initial;
    }

    method SaveData(project: string, data: Assoc<Row>, hostErrors: seq<string>) returns (errors: seq<string>)
      modifies this
      ensures errors == hostErrors
      ensures hostErrors == [] ==> tables == Write(old(tables), project, data)
      ensures hostErrors != [] ==> tables == old(tables)
    {
      errors := hostErrors;
      if hostErrors == [] {
        tables := Write(tables, project, data);
      }
    }

    /** `deleteRecord`: `deleted` is false (the host's null) when the record does not exist. */
    method DeleteRecord(project: string, record: string) returns (deleted: bool)
      modifies this
      ensures deleted == RecordExists(old(tables), project, record)
      ensures deleted ==> tables == Delete(old(tables), project, record)
      ensures !deleted ==> tables == old(tables)
    {
      deleted := RecordExists(tables, project, record);
      if deleted {
        tables := Delete(tables, project, record);
      }
    }
  }

  /** After a delete the record is no longer listed and none of its cells remain. */
  lemma DeleteRemoves(t: Tables, project: string, record: string, f: string)
    ensures !RecordExists(Delete(t, project, record), project, record)
    ensures Value(Delete(t, project, record), project, record, f) == ""
  {
  }
}
