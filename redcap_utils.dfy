/**
 * Helpers over the host's data dictionary and PHP arrays: digit-only request ids, the
 * choice-string parser ("1, Yes | 0, No"), the union-style flatten of nested arrays, the
 * order-preserving associative splice, the raw-to-display value mapping with the record
 * sort key, and the memoised data-dictionary and choice caches.
 */
module RedcapUtils {
  import opened Wrappers
  import opened Php
  import opened RecordStore

  // ---------------------------------------------------------------- request ids

  /** A query parameter that must be all digits: anything else (or nothing) gives null. */
  function DigitsOnly(query: map<string, string>, name: string): (r: Option<string>)
    ensures r.Some? <==> name in query && CtypeDigit(query[name])
    ensures r.Some? ==> r.value == query[name]
  {
    if name in query && CtypeDigit(query[name]) then Some(query[name]) else None
  }

  function GetPID(query: map<string, string>): Option<string> {
    DigitsOnly(query, "pid")
  }

  function GetID(query: map<string, string>): Option<string> {
    DigitsOnly(query, "id")
  }

  /** A digit-only id is a numeric string, so every id these return passes the plugin's numeric checks. */
  lemma DigitIdsAreNumeric(query: map<string, string>, name: string)
    requires DigitsOnly(query, name).Some?
    ensures IsNumericStr(DigitsOnly(query, name).value)
  {
    var s := DigitsOnly(query, name).value;
    assert DropLeading(s, IsNumericSpace) == s;
    assert DropTrailing(s, IsNumericSpace) == s;
    assert WithoutSign(s) == s;
    assert IndexOfChar(s, 'e') == None && IndexOfChar(s, 'E') == None;
    assert IndexOfChar(s, '.') == None;
  }

  // ---------------------------------------------------------------- choice strings

  /** One choice "code, label": the text before the first ", " and the rest re-joined with ", ". */
  function CommaDelim(value: string): (string, string) {
    var parts := Explode(", ", Trim(value));
    (parts[0], Implode(", ", parts[1..]))
  }

  /** The rest of the pieces is the slice `array_slice($arr, 1, count($arr) - 1)`. */
  lemma RestIsSlice(n: nat)
    requires n >= 1
    ensures SliceBounds(n, 1, n - 1) == (1, n)
  {
  }

  /** The code is the trimmed text up to the first ", ", and code + ", " + label gives the trimmed text back. */
  lemma CommaDelimSplitsAtFirst(value: string)
    ensures var t := Trim(value);
      var kv := CommaDelim(value);
      match FindFrom(t, ", ", 0)
      case None => kv.0 == t && kv.1 == ""
      case Some(i) => kv.0 == t[..i] && kv.0 + ", " + kv.1 == t
  {
    var t := Trim(value);
    match FindFrom(t, ", ", 0)
    case None =>
      assert Explode(", ", t) == [t];
    case Some(i) =>
      var rest := t[i + 2..];
      var parts := Explode(", ", t);
      assert parts == [t[..i]] + Explode(", ", rest);
      assert parts[1..] == Explode(", ", rest);
      ImplodeExplode(", ", rest);
      SplitAround(t, ", ", i);
  }

  /** A nested PHP array: a scalar, or entries each holding a nested value. */
  datatype Nested = Leaf(s: string) | Node(entries: seq<(string, Nested)>)

  /**
   * `array_flatten`: scalars are put under their key (overwriting), nested arrays are
   * flattened and added with `+` (an existing key wins).
   */
  function ArrayFlatten(n: Nested): Assoc<string>
    requires n.Node?
  {
    FlattenFrom(n, [], 0)
  }

  function FlattenFrom(n: Nested, acc: Assoc<string>, i: nat): Assoc<string>
    requires n.Node? && i <= |n.entries|
    decreases n, |n.entries| - i
  {
    if i == |n.entries| then acc
    else
      var k := n.entries[i].0;
      var v := n.entries[i].1;
      assert n.entries[i] in n.entries;
      match v
      case Leaf(s) => FlattenFrom(n, Put(acc, k, s), i + 1)
      case Node(_) => FlattenFrom(n, Union(acc, FlattenFrom(v, [], 0)), i + 1)
  }

  /** Flattening only ever grows the array, and values lifted from nested arrays never replace earlier ones. */
  lemma {:induction false} FlattenKeepsEarlier(n: Nested, acc: Assoc<string>, i: nat)
    requires n.Node? && i <= |n.entries|
    requires forall j :: i <= j < |n.entries| ==> n.entries[j].1.Node?
    ensures var r := FlattenFrom(n, acc, i); |r| >= |acc| && r[..|acc|] == acc
    decreases |n.entries| - i
  {
    if i < |n.entries| {
      var v := n.entries[i].1;
      var acc' := Union(acc, FlattenFrom(v, [], 0));
      FlattenKeepsEarlier(n, acc', i + 1);
      assert acc'[..|acc|] == acc;
    }
  }

  /** The choice string split on '|', each piece parsed into a one-entry array under its position. */
  function ChoiceArrays(choices: string): (m: Nested)
    ensures m.Node? && |m.entries| == |Explode("|", choices)|
  {
    var split := Explode("|", choices);
    Node(seq(|split|, i requires 0 <= i < |split| =>
      var kv := CommaDelim(split[i]);
      (NatToString(i), Node([(kv.0, Leaf(kv.1))]))))
  }

  /** `flatten_type_values`: the code-to-label array of a choice string. */
  function FlattenTypeValues(choices: string): Assoc<string> {
    ArrayFlatten(ChoiceArrays(choices))
  }

  /** The reference reading of a choice list: one entry per piece, in order, the first piece of a code winning. */
  function FirstChoiceWins(acc: Assoc<string>, pieces: seq<string>): Assoc<string>
    decreases |pieces|
  {
    if |pieces| == 0 then acc
    else
      var kv := CommaDelim(pieces[0]);
      FirstChoiceWins(if kv.0 in KeysOf(acc) then acc else acc + [kv], pieces[1..])
  }

  lemma UnionOne(acc: Assoc<string>, k: string, v: string)
    ensures Union(acc, [(k, v)]) == if k in KeysOf(acc) then acc else acc + [(k, v)]
  {
    assert [(k, v)][1..] == [];
  }

  lemma FlattenOne(k: string, v: string)
    ensures FlattenFrom(Node([(k, Leaf(v))]), [], 0) == [(k, v)]
  {
    var n := Node([(k, Leaf(v))]);
    assert FlattenFrom(n, [], 0) == FlattenFrom(n, Put([], k, v), 1);
    assert Put([], k, v) == [(k, v)];
  }

  lemma {:induction false} ChoicesFromPosition(choices: string, acc: Assoc<string>, i: nat)
    requires i <= |Explode("|", choices)|
    ensures FlattenFrom(ChoiceArrays(choices), acc, i) == FirstChoiceWins(acc, Explode("|", choices)[i..])
    decreases |Explode("|", choices)| - i
  {
    var split := Explode("|", choices);
    var m := ChoiceArrays(choices);
    if i < |split| {
      var kv := CommaDelim(split[i]);
      FlattenOne(kv.0, kv.1);
      UnionOne(acc, kv.0, kv.1);
      var acc' := if kv.0 in KeysOf(acc) then acc else acc + [kv];
      ChoicesFromPosition(choices, acc', i + 1);
      assert split[i..][0] == split[i] && split[i..][1..] == split[i + 1..];
    } else {
      assert split[i..] == [];
    }
  }

  /** Each code of a choice string keeps the label of its first piece, and codes keep their order. */
  lemma ChoicesFirstWins(choices: string)
    ensures FlattenTypeValues(choices) == FirstChoiceWins([], Explode("|", choices))
  {
    ChoicesFromPosition(choices, [], 0);
    assert Explode("|", choices)[0..] == Explode("|", choices);
  }

  /** The label a reference reading gives code `k`: that of the first piece with code `k`. */
  function FirstLabel(pieces: seq<string>, k: string): Option<string>
    decreases |pieces|
  {
    if |pieces| == 0 then None
    else if CommaDelim(pieces[0]).0 == k then Some(CommaDelim(pieces[0]).1)
    else FirstLabel(pieces[1..], k)
  }

  /** A code already read keeps its label; a new code gets the label of its first piece; no other code appears. */
  lemma {:induction false} FirstChoiceValue(acc: Assoc<string>, pieces: seq<string>, k: string)
    ensures Get(FirstChoiceWins(acc, pieces), k) == if k in KeysOf(acc) then Get(acc, k) else FirstLabel(pieces, k)
    decreases |pieces|
  {
    if |pieces| > 0 {
      var kv := CommaDelim(pieces[0]);
      if kv.0 in KeysOf(acc) {
        FirstChoiceValue(acc, pieces[1..], k);
      } else {
        var acc' := acc + [kv];
        FirstChoiceValue(acc', pieces[1..], k);
        GetAppend(acc, kv.0, kv.1, k);
        KeysOfConcat(acc, [kv]);
      }
    }
  }

  /** The parsed choice list never repeats a code. */
  lemma {:induction false} FirstChoiceDistinct(acc: Assoc<string>, pieces: seq<string>)
    requires DistinctKeys(acc)
    ensures DistinctKeys(FirstChoiceWins(acc, pieces))
    decreases |pieces|
  {
    if |pieces| > 0 {
      var kv := CommaDelim(pieces[0]);
      if kv.0 !in KeysOf(acc) {
        var acc' := acc + [kv];
        assert DistinctKeys(acc') by {
          forall i, j | 0 <= i < j < |acc'| ensures acc'[i].0 != acc'[j].0 {
            if j == |acc| {
              assert acc'[i].0 == KeysOf(acc)[i];
            }
          }
        }
        FirstChoiceDistinct(acc', pieces[1..]);
      } else {
        FirstChoiceDistinct(acc, pieces[1..]);
      }
    }
  }

  /** Each code of a choice string shows the label of its first piece, and the codes are distinct. */
  lemma ChoiceLabels(choices: string, code: string)
    ensures Get(FlattenTypeValues(choices), code) == FirstLabel(Explode("|", choices), code)
    ensures DistinctKeys(FlattenTypeValues(choices))
  {
    ChoicesFirstWins(choices);
    FirstChoiceValue([], Explode("|", choices), code);
    FirstChoiceDistinct([], Explode("|", choices));
  }

  // ---------------------------------------------------------------- associative splice

  /**
   * `array_splice_assoc(&$array, $offset, $length, $replacement)`: the array becomes the part
   * before `offset`, the replacement and the part after `offset + length`; the removed slice
   * is returned.
   */
  method ArraySpliceAssoc<V>(a: Assoc<V>, offset: int, length: int, replacement: Assoc<V>)
    returns (spliced: Assoc<V>, removed: Assoc<V>)
    ensures removed == Slice(a, offset, length)
    ensures spliced == Merge(Merge(Slice(a, 0, offset), replacement), Slice(a, offset + length, |a|))
  {
    removed := Slice(a, offset, length);
    var before := Slice(a, 0, offset);
    var after := Slice(a, offset + length, |a|);
    spliced := Merge(Merge(before, replacement), after);
  }

  /** The keys of the part before `offset` are not among the replacement's. */
  lemma BeforeDisjoint<V>(a: Assoc<V>, offset: nat, replacement: Assoc<V>)
    requires offset <= |a|
    requires forall j :: 0 <= j < |replacement| ==> replacement[j].0 !in KeysOf(a)
    ensures forall j :: 0 <= j < |replacement| ==> replacement[j].0 !in KeysOf(a[..offset])
  {
    assert KeysOf(a[..offset]) == KeysOf(a)[..offset];
  }

  /** The keys of the part after `offset` are neither before it nor in the replacement. */
  lemma AfterDisjoint<V>(a: Assoc<V>, offset: nat, replacement: Assoc<V>)
    requires offset <= |a| && DistinctKeys(a)
    requires forall j :: 0 <= j < |replacement| ==> replacement[j].0 !in KeysOf(a)
    ensures DistinctKeys(a[offset..])
    ensures forall j :: 0 <= j < |a| - offset ==> a[offset..][j].0 !in KeysOf(a[..offset] + replacement)
  {
    var before := a[..offset];
    var after := a[offset..];
    KeysOfConcat(before, replacement);
    forall j | 0 <= j < |after| ensures after[j].0 !in KeysOf(before + replacement) {
      assert after[j] == a[offset + j];
      forall i | 0 <= i < |before| ensures KeysOf(before)[i] != after[j].0 {
        assert before[i] == a[i];
      }
      assert after[j].0 in KeysOf(a) by {
        assert KeysOf(a)[offset + j] == after[j].0;
      }
      forall i | 0 <= i < |replacement| ensures KeysOf(replacement)[i] != after[j].0 {
        assert replacement[i].0 !in KeysOf(a);
      }
    }
    forall i, j | 0 <= i < j < |after| ensures after[i].0 != after[j].0 {
      assert after[i] == a[offset + i] && after[j] == a[offset + j];
    }
  }

  lemma MergeThree<V>(b: Assoc<V>, r: Assoc<V>, c: Assoc<V>)
    requires DistinctKeys(r) && DistinctKeys(c)
    requires forall j :: 0 <= j < |r| ==> r[j].0 !in KeysOf(b)
    requires forall j :: 0 <= j < |c| ==> c[j].0 !in KeysOf(b + r)
    ensures Merge(Merge(b, r), c) == b + r + c
  {
    MergeDisjoint(b, r);
    MergeDisjoint(b + r, c);
  }

  /** The pieces a zero-length splice at `offset` cuts an array into. */
  lemma SliceParts<V>(a: Assoc<V>, offset: nat)
    requires offset <= |a|
    ensures Slice(a, offset, 0) == []
    ensures Slice(a, 0, offset) == a[..offset]
    ensures Slice(a, offset, |a|) == a[offset..]
  {
    SliceNonNegative(a, offset, 0);
    SliceNonNegative(a, 0, offset);
    SliceNonNegative(a, offset, |a|);
    assert a[offset..|a|] == a[offset..];
  }

  /** With distinct keys, a zero-length splice inside the array inserts the replacement at `offset`. */
  lemma SpliceInserts<V>(a: Assoc<V>, offset: nat, replacement: Assoc<V>)
    requires offset <= |a| && DistinctKeys(a) && DistinctKeys(replacement)
    requires forall j :: 0 <= j < |replacement| ==> replacement[j].0 !in KeysOf(a)
    ensures Slice(a, offset, 0) == []
    ensures Merge(Merge(Slice(a, 0, offset), replacement), Slice(a, offset, |a|)) == a[..offset] + replacement + a[offset..]
  {
    SliceParts(a, offset);
    BeforeDisjoint(a, offset, replacement);
    AfterDisjoint(a, offset, replacement);
    MergeThree(a[..offset], replacement, a[offset..]);
  }

  // ---------------------------------------------------------------- display values

  /** A raw field value: null, a scalar, or a checkbox's option array. */
  datatype FieldValue = Missing | Text(s: string) | Options(opts: Assoc<Option<string>>)

  datatype SortKey = SortText(text: string) | SortTime(time: Option<int>)

  /** A display value, with the `__SORT__` key when one is set. */
  datatype Display = Display(value: FieldValue, sort: Option<SortKey>)

  /** The date parsing and formatting the host library performs. */
  datatype DateFunctions = DateFunctions(strtotime: string -> Option<int>, format: (string, string) -> string)

  const FormStatuses: map<string, string> := map["0" := "Incomplete", "1" := "Unverified", "2" := "Complete"]

  const UnstructuredTypes: seq<string> := ["text", "textarea"]

  const DateFormats: map<string, string> := map["date_mdy" := "m/d/Y", "datetime_mdy" := "m/d/Y H:i"]

  /** The fixed dictionaries of the yes/no and true/false types. */
  const CustomDictionaryValues: map<string, map<string, string>> :=
    map["yesno" := map["1" := "Yes", "0" := "No"], "truefalse" := map["1" := "True", "0" := "False"]]

  /** The array key a scalar value indexes with. */
  function KeyOfValue(v: FieldValue): Option<string> {
    match v
    case Missing => Some("")
    case Text(s) => Some(s)
    case Options(_) => None
  }

  /** `$dictionary[$value]`, null when the key is absent. */
  function IndexMap(m: map<string, string>, v: FieldValue): FieldValue {
    match KeyOfValue(v)
    case Some(k) => if k in m then Text(m[k]) else Missing
    case None => Missing
  }

  function IndexAssoc(a: Assoc<string>, v: FieldValue): FieldValue {
    match KeyOfValue(v)
    case Some(k) => (match Get(a, k) case Some(s) => Text(s) case None => Missing)
    case None => Missing
  }

  /** The record sort key: "A-B" becomes "A." followed by B left-padded with zeros to ten characters. */
  function RecordSortKey(value: string): string {
    var parts := Explode("-", value);
    if |parts| > 1 then parts[0] + "." + PadLeft(parts[1], 10, '0') else value
  }

  lemma RecordSortKeyShape(value: string)
    ensures match FindFrom(value, "-", 0)
      case None => RecordSortKey(value) == value
      case Some(i) =>
        var rest := value[i + 1..];
        var second := Explode("-", rest)[0];
        && RecordSortKey(value) == value[..i] + "." + PadLeft(second, 10, '0')
        && |RecordSortKey(value)| >= i + 11
  {
  }

  /** The checked options of a checkbox value, each with its label, in the value's order. */
  function CheckedOptions(acc: Assoc<Option<string>>, opts: Assoc<Option<string>>, dd: Assoc<string>): Assoc<Option<string>>
    decreases |opts|
  {
    if |opts| == 0 then acc
    else
      var k := opts[0].0;
      CheckedOptions(if opts[0].1 == Some("1") then Put(acc, k, Get(dd, k)) else acc, opts[1..], dd)
  }

  function CheckboxDisplay(v: FieldValue, dd: Assoc<string>): FieldValue {
    match v
    case Options(opts) => Options(CheckedOptions([], opts, dd))
    case _ => Options([])
  }

  /** The raw-to-display mapping of structured field types. */
  function TypedValue(field: string, fieldType: string, dd: Assoc<string>, v: FieldValue): FieldValue {
    if fieldType == "select" || fieldType == "radio" then IndexAssoc(dd, v)
    else if fieldType == "checkbox" then CheckboxDisplay(v, dd)
    else if fieldType == "yesno" || fieldType == "truefalse" then IndexMap(CustomDictionaryValues[fieldType], v)
    else if fieldType == "sql" then
      if field in CustomDictionaryValues && IndexMap(CustomDictionaryValues[field], v).Text? then
        IndexMap(CustomDictionaryValues[field], v)
      else if !v.Missing? && v != Text("") then Text("")
      else v
    else v
  }

  predicate EmptyValue(v: FieldValue) {
    match v
    case Missing => true
    case Text(s) => EmptyStr(s)
    case Options(o) => |o| == 0
  }

  /** `getFieldDisplayValue`: the display value of a raw value, with a sort key for the record id and dates. */
  function FieldDisplayValue(proj: ProjectMeta, field: string, v: FieldValue, dates: DateFunctions): (d: Display)
    // a field the project does not have is shown as it is, with no sort key
    ensures proj.Lookup(field).None? ==> d == Display(v, None)
    // only the record-id field and date-validated fields carry a sort key
    ensures d.sort.Some? ==>
      proj.Lookup(field).Some? && (field == proj.tablePk || proj.Lookup(field).value.validation in DateFormats)
  {
    match proj.Lookup(field)
    case None => Display(v, None)
    case Some(f) =>
      var pkSort := if field == proj.tablePk then
                      (match v case Text(s) => Some(SortText(RecordSortKey(s))) case _ => None)
                    else None;
      var dd := FlattenTypeValues(f.choices);
      var mapped := if proj.IsFormStatus(field) then IndexMap(FormStatuses, v)
                    else if f.elementType !in UnstructuredTypes then TypedValue(field, f.elementType, dd, v)
                    else v;
      if f.validation in DateFormats && !EmptyValue(mapped) && mapped.Text? then
        Display(Text(dates.format(mapped.s, DateFormats[f.validation])), Some(SortTime(dates.strtotime(mapped.s))))
      else Display(mapped, pkSort)
  }

  /** The record-id field of a non-date project sorts by its record sort key. */
  lemma RecordIdSortKey(proj: ProjectMeta, s: string, dates: DateFunctions)
    requires proj.tablePk in proj.Names()
    requires proj.Lookup(proj.tablePk).value.validation !in DateFormats
    ensures FieldDisplayValue(proj, proj.tablePk, Text(s), dates).sort == Some(SortText(RecordSortKey(s)))
  {
  }

  /** The structured, non-date, non-status fields of a project, as the type rules see them. */
  predicate PlainTyped(proj: ProjectMeta, field: string, fieldType: string) {
    && proj.Lookup(field).Some?
    && proj.Lookup(field).value.elementType == fieldType
    && proj.Lookup(field).value.validation !in DateFormats
    && !proj.IsFormStatus(field)
  }

  /** Select and radio values show their dictionary label, or null when the code is unknown. */
  lemma SelectThroughDictionary(proj: ProjectMeta, field: string, code: string, dates: DateFunctions)
    requires PlainTyped(proj, field, "select") || PlainTyped(proj, field, "radio")
    ensures var dd := FlattenTypeValues(proj.Lookup(field).value.choices);
      FieldDisplayValue(proj, field, Text(code), dates).value ==
        match Get(dd, code) case Some(shown) => Text(shown) case None => Missing
  {
    var f := proj.Lookup(field).value;
    var dd := FlattenTypeValues(f.choices);
    assert f.elementType !in UnstructuredTypes;
    assert TypedValue(field, f.elementType, dd, Text(code)) == IndexAssoc(dd, Text(code));
  }

  lemma InCons<T>(s: seq<T>, x: T)
    requires |s| > 0
    ensures x in s <==> s[0] == x || x in s[1..]
  {
    assert s == [s[0]] + s[1..];
  }

  /** A checkbox shows exactly the options whose raw value is "1", each with its label. */
  lemma {:induction false} CheckedExactly(acc: Assoc<Option<string>>, opts: Assoc<Option<string>>, dd: Assoc<string>, k: string)
    ensures Get(CheckedOptions(acc, opts, dd), k) == if (k, Some("1")) in opts then Some(Get(dd, k)) else Get(acc, k)
    decreases |opts|
  {
    if |opts| > 0 {
      InCons(opts, (k, Some("1")));
      var k0 := opts[0].0;
      if opts[0].1 == Some("1") {
        var acc' := Put(acc, k0, Get(dd, k0));
        assert CheckedOptions(acc, opts, dd) == CheckedOptions(acc', opts[1..], dd);
        CheckedExactly(acc', opts[1..], dd, k);
        if k0 != k {
          GetAfterPut(acc, k0, Get(dd, k0), k);
        }
      } else {
        assert CheckedOptions(acc, opts, dd) == CheckedOptions(acc, opts[1..], dd);
        CheckedExactly(acc, opts[1..], dd, k);
      }
    }
  }

  /** The display value of a checked box: the checked options' labels. */
  lemma CheckboxShowsChecked(proj: ProjectMeta, field: string, opts: Assoc<Option<string>>, k: string, dates: DateFunctions)
    requires PlainTyped(proj, field, "checkbox")
    ensures var dd := FlattenTypeValues(proj.Lookup(field).value.choices);
      var shown := FieldDisplayValue(proj, field, Options(opts), dates).value;
      && shown.Options?
      && (k in KeysOf(shown.opts) <==> (k, Some("1")) in opts)
      && ((k, Some("1")) in opts ==> Get(shown.opts, k) == Some(Get(dd, k)))
  {
    var f := proj.Lookup(field).value;
    var dd := FlattenTypeValues(f.choices);
    assert f.elementType !in UnstructuredTypes;
    assert TypedValue(field, f.elementType, dd, Options(opts)) == Options(CheckedOptions([], opts, dd));
    CheckedExactly([], opts, dd, k);
  }

  /** An sql field with a non-empty value outside the fixed dictionaries shows "". */
  lemma SqlUnknownIsBlank(proj: ProjectMeta, field: string, s: string, dates: DateFunctions)
    requires PlainTyped(proj, field, "sql")
    requires field !in CustomDictionaryValues && s != ""
    ensures FieldDisplayValue(proj, field, Text(s), dates).value == Text("")
  {
  }

  // ---------------------------------------------------------------- dictionary caches

  /** One data-dictionary row of a field. */
  datatype DictEntry = DictEntry(validation: string, fieldLabel: string, choices: string)

  type Dictionary = map<string, DictEntry>

  function EntryOf(d: Dictionary, field: string): DictEntry {
    if field in d then d[field] else DictEntry("", "", "")
  }

  /** `getFieldValidationTypeFor`: an empty validation type is null. */
  function ValidationTypeOf(d: Dictionary, field: string): (r: Option<string>)
    ensures r.Some? ==> !EmptyStr(r.value) && r.value == EntryOf(d, field).validation
    ensures r.None? <==> EmptyStr(EntryOf(d, field).validation)
  {
    var v := EntryOf(d, field).validation;
    if EmptyStr(v) then None else Some(v)
  }

  /** `getDictionaryLabelFor`: an empty label falls back to the key. */
  function LabelOf(d: Dictionary, key: string): (r: string)
    ensures EmptyStr(EntryOf(d, key).fieldLabel) ==> r == key
    ensures !EmptyStr(EntryOf(d, key).fieldLabel) ==> r == EntryOf(d, key).fieldLabel
  {
    var l := EntryOf(d, key).fieldLabel;
    if EmptyStr(l) then key else l
  }

  /** Every choice list in `values` is the parse of the field's choices in the dictionary `fetch` returns. */
  ghost predicate ParsedFrom(values: map<string, map<string, Assoc<string>>>, fetch: (string, string) -> Dictionary) {
    forall p, k :: p in values && k in values[p] ==>
      values[p][k] == FlattenTypeValues(EntryOf(fetch(p, "array"), k).choices)
  }

  /** Caching one more parsed choice list keeps every cached list a parse of the host's dictionary. */
  lemma ParsedFromPut(values: map<string, map<string, Assoc<string>>>, fetch: (string, string) -> Dictionary,
                      p: string, key: string)
    requires ParsedFrom(values, fetch)
    ensures var inner := if p in values then values[p] else map[];
      ParsedFrom(values[p := inner[key := FlattenTypeValues(EntryOf(fetch(p, "array"), key).choices)]], fetch)
  {
    var inner := if p in values then values[p] else map[];
    var values' := values[p := inner[key := FlattenTypeValues(EntryOf(fetch(p, "array"), key).choices)]];
    forall q, k | q in values' && k in values'[q]
      ensures values'[q][k] == FlattenTypeValues(EntryOf(fetch(q, "array"), k).choices)
    {
      if q != p {
        assert values'[q] == values[q];
      } else if k != key {
        assert values'[q][k] == inner[k];
      }
    }
  }

  /**
   * The memoised dictionary lookups. `fetch` stands for the host's data-dictionary call;
   * `fetches` records every call made to it.
   */
  class DictionaryCache {
    const fetch: (string, string) -> Dictionary
    var dataDictionary: map<string, map<string, Dictionary>>
    var dictionaryValues: map<string, map<string, Assoc<string>>>
    ghost var fetches: seq<(string, string)>

    ghost predicate Valid()
      reads this
    {
      DictionariesFetched() && ValuesParsed() && LogMatches()
    }

    /** Every cached dictionary is what the host returns for its (project, format). */
    ghost predicate DictionariesFetched()
      reads this`dataDictionary
    {
      forall p, f :: p in dataDictionary && f in dataDictionary[p] ==> dataDictionary[p][f] == fetch(p, f)
    }

    /** Every cached choice list is the parse of the field's choices in the host's dictionary. */
    ghost predicate ValuesParsed()
      reads this`dictionaryValues
    {
      ParsedFrom(dictionaryValues, fetch)
    }

    /** The host was called exactly once for each cached dictionary, and for nothing else. */
    ghost predicate LogMatches()
      reads this`dataDictionary, this`fetches
    {
      && (forall p, f :: (p, f) in fetches <==> p in dataDictionary && f in dataDictionary[p])
      && (forall i, j :: 0 <= i < j < |fetches| ==> fetches[i] != fetches[j])
    }

    ghost predicate Cached(p: string, f: string)
      reads this
    {
      p in dataDictionary && f in dataDictionary[p]
    }

    constructor (fetch: (string, string) -> Dictionary)
      ensures Valid() && this.fetch == fetch && fetches == []
    {
      this.fetch := fetch;
      dataDictionary := map[];
      dictionaryValues := map[];
      fetches := [];
    }

    /** `getDataDictionary`: the host is asked only the first time for each (project, format). */
    method GetDataDictionary(p: string, format: string) returns (d: Dictionary)
      requires Valid()
      modifies this`dataDictionary, this`fetches
      ensures Valid()
      ensures d == fetch(p, format)
      ensures fetches == if old(Cached(p, format)) then old(fetches) else old(fetches) + [(p, format)]
    {
      var forProject := if p in dataDictionary then dataDictionary[p] else map[];
      if format !in forProject {
        forProject := forProject[format := fetch(p, format)];
        dataDictionary := dataDictionary[p := forProject];
        fetches := fetches + [(p, format)];
      }
      d := dataDictionary[p][format];
    }

    method GetFieldValidationTypeFor(p: string, field: string) returns (r: Option<string>)
      requires Valid()
      modifies this`dataDictionary, this`fetches
      ensures Valid()
      ensures r == ValidationTypeOf(fetch(p, "array"), field)
    {
      var d := GetDataDictionary(p, "array");
      r := ValidationTypeOf(d, field);
    }

    method GetDictionaryLabelFor(p: string, key: string) returns (r: string)
      requires Valid()
      modifies this`dataDictionary, this`fetches
      ensures Valid()
      ensures r == LabelOf(fetch(p, "array"), key)
    {
      var d := GetDataDictionary(p, "array");
      r := LabelOf(d, key);
    }

    /** `getDictionaryValuesFor`: the parsed choices of a field, parsed once per (project, field). */
    method GetDictionaryValuesFor(p: string, key: string) returns (r: Assoc<string>)
      requires Valid()
      modifies this`dataDictionary, this`dictionaryValues, this`fetches
      ensures Valid()
      ensures r == FlattenTypeValues(EntryOf(fetch(p, "array"), key).choices)
      ensures |fetches| <= |old(fetches)| + 1
    {
      var forProject := if p in dictionaryValues then dictionaryValues[p] else map[];
      if key !in forProject {
        var d := GetDataDictionary(p, "array");
        ParsedFromPut(dictionaryValues, fetch, p, key);
        forProject := forProject[key := FlattenTypeValues(EntryOf(d, key).choices)];
        dictionaryValues := dictionaryValues[p := forProject];
        r := forProject[key];
      } else {
        r := forProject[key];
        assert ValuesParsed();
      }
    }
  }
}
