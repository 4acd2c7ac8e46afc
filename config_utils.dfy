/**
 * The field-configuration builder: the fixed default table of per-surface
 * `{enabled, required}` flags for each (project, field), the merge of the persisted
 * module configuration over it (with enabled-and-required surfaces forced on), the
 * type-dependent extras of specimen fields, and the module configuration blob that is
 * read from and saved under the Box project's "module-config" setting.
 */
module ConfigUtils {
  import opened Wrappers
  import opened Php
  import opened RecordStore

  /** The eight places of the plugin where a field can be shown or required. */
  datatype Surface =
    | SpecimenDashboard
    | SpecimenEntryForm
    | BatchMode
    | SpecimenList
    | ReportingTable
    | ShipmentList
    | ShipmentBoxList
    | ShipmentManifest
  {
    function Key(): string {
      match this
      case SpecimenDashboard => "specimen-dashboard"
      case SpecimenEntryForm => "specimen-entry-form"
      case BatchMode => "batch-mode"
      case SpecimenList => "specimen-list"
      case ReportingTable => "reporting-table"
      case ShipmentList => "shipment-list"
      case ShipmentBoxList => "shipment-box-list"
      case ShipmentManifest => "shipment-manifest"
    }
  }

  /** The surfaces in the order of the default table. */
  const Surfaces: seq<Surface> := [SpecimenDashboard, SpecimenEntryForm, BatchMode, SpecimenList,
                                   ReportingTable, ShipmentList, ShipmentBoxList, ShipmentManifest]

  lemma SurfacesComplete()
    ensures forall s: Surface :: s in Surfaces
  {
    forall s: Surface
      ensures s in Surfaces
    {
      match s
      case SpecimenDashboard => assert Surfaces[0] == s;
      case SpecimenEntryForm => assert Surfaces[1] == s;
      case BatchMode => assert Surfaces[2] == s;
      case SpecimenList => assert Surfaces[3] == s;
      case ReportingTable => assert Surfaces[4] == s;
      case ShipmentList => assert Surfaces[5] == s;
      case ShipmentBoxList => assert Surfaces[6] == s;
      case ShipmentManifest => assert Surfaces[7] == s;
    }
  }

  datatype Flags = Flags(enabled: bool, required: bool)

  type SurfaceTable = map<Surface, Flags>

  /** Specimen fields the plugin manages itself and never offers for data entry. */
  const InfrastructureFields: seq<string> := ["record_id", "box_record_id", "box_position"]

  /** The three project names a field configuration can be built for. */
  const ProjectNames: seq<string> := ["specimen", "box", "shipment"]

  // ---------------------------------------------------------------- the default table

  function AllDisabled(): SurfaceTable {
    map s | s in Surfaces :: Flags(false, false)
  }

  function Enable(t: SurfaceTable, on: set<Surface>): SurfaceTable {
    map s | s in t :: if s in on then t[s].(enabled := true) else t[s]
  }

  function Require(t: SurfaceTable, on: set<Surface>): SurfaceTable {
    map s | s in t :: if s in on then t[s].(required := true) else t[s]
  }

  /** The surfaces the project switch turns on. */
  function EnabledSurfaces(field: string, project: string): set<Surface> {
    if project == "box" then
      {SpecimenDashboard, ReportingTable, ShipmentBoxList, ShipmentManifest}
    else if project == "specimen" then
      var entry := if field !in InfrastructureFields then {SpecimenEntryForm} else {};
      var batch := if field !in InfrastructureFields && field != "specimen_name" then {BatchMode} else {};
      entry + batch + {SpecimenList, ReportingTable, ShipmentManifest}
    else if project == "shipment" then
      {ReportingTable, ShipmentList, ShipmentManifest}
    else
      {}
  }

  /** The surfaces the switch on "project.field" marks as required. */
  function RequiredSurfaces(field: string, project: string): set<Surface> {
    var key := project + "." + field;
    if key == "specimen.specimen_name" then {SpecimenEntryForm, SpecimenList}
    else if key == "specimen.box_position" then {SpecimenList}
    else {}
  }

  /** The default `{enabled, required}` flags of every surface for one field of one project. */
  function FieldMetadataConfig(field: string, project: string): (t: SurfaceTable)
    ensures forall s: Surface :: s in t
  {
    SurfacesComplete();
    Require(Enable(AllDisabled(), EnabledSurfaces(field, project)), RequiredSurfaces(field, project))
  }

  const BoxDefaultSurfaces: set<Surface> := {SpecimenDashboard, ReportingTable, ShipmentBoxList, ShipmentManifest}
  const ShipmentDefaultSurfaces: set<Surface> := {ReportingTable, ShipmentList, ShipmentManifest}

  lemma ConcatSuffix(a: string, b: string, c: string)
    requires a + b == c
    ensures b == c[|a|..]
  {
    assert (a + b)[|a|..] == b;
  }

  /** The "project.field" key of a box or shipment field never names a required specimen field. */
  lemma OtherProjectKeys(field: string, project: string)
    requires project == "box" || project == "shipment"
    ensures RequiredSurfaces(field, project) == {}
  {
    var key := project + "." + field;
    assert key[1] == project[1];
    assert "specimen.specimen_name"[1] == 'p' && "specimen.box_position"[1] == 'p';
  }

  /** A specimen field's "project.field" key matches exactly when the field name does. */
  lemma SpecimenKeys(field: string)
    ensures "specimen." + field == "specimen.specimen_name" <==> field == "specimen_name"
    ensures "specimen." + field == "specimen.box_position" <==> field == "box_position"
  {
    if "specimen." + field == "specimen.specimen_name" {
      ConcatSuffix("specimen.", field, "specimen.specimen_name");
    }
    if "specimen." + field == "specimen.box_position" {
      ConcatSuffix("specimen.", field, "specimen.box_position");
    }
  }

  /** Box fields are on exactly the dashboard, reporting table, shipment box list and manifest, and never required. */
  lemma BoxDefaults(field: string, s: Surface)
    ensures FieldMetadataConfig(field, "box")[s] == Flags(s in BoxDefaultSurfaces, false)
  {
    OtherProjectKeys(field, "box");
  }

  /** Shipment fields are on exactly the reporting table, shipment list and manifest, and never required. */
  lemma ShipmentDefaults(field: string, s: Surface)
    ensures FieldMetadataConfig(field, "shipment")[s] == Flags(s in ShipmentDefaultSurfaces, false)
  {
    OtherProjectKeys(field, "shipment");
  }

  /** Which surfaces a specimen field is on by default: the entry form unless it is an infrastructure field,
      batch mode unless it is that or the specimen name, and always the list, reporting table and manifest. */
  lemma SpecimenDefaults(field: string, s: Surface)
    ensures FieldMetadataConfig(field, "specimen")[s].enabled <==>
      match s
      case SpecimenEntryForm => field !in InfrastructureFields
      case BatchMode => field !in InfrastructureFields && field != "specimen_name"
      case SpecimenList => true
      case ReportingTable => true
      case ShipmentManifest => true
      case _ => false
  {
    SpecimenSurfaces(field);
    EnabledIff(field, "specimen", s);
  }

  lemma SpecimenSurfaces(field: string)
    ensures var infra := field in InfrastructureFields;
      EnabledSurfaces(field, "specimen") == (if !infra then {SpecimenEntryForm} else {})
        + (if !infra && field != "specimen_name" then {BatchMode} else {})
        + {SpecimenList, ReportingTable, ShipmentManifest}
  {
    assert "specimen" != "box";
  }

  /** A surface is enabled exactly when the project switch turns it on; requiring a surface does not enable it. */
  lemma EnabledIff(field: string, project: string, s: Surface)
    ensures FieldMetadataConfig(field, project)[s].enabled <==> s in EnabledSurfaces(field, project)
  {
    SurfacesComplete();
  }

  /** The required surfaces of the three projects: specimen_name's entry form and list, and box_position's list. */
  lemma RequiredOnly(field: string, project: string, s: Surface)
    requires project in ProjectNames
    ensures FieldMetadataConfig(field, project)[s].required <==>
      project == "specimen"
      && ((field == "specimen_name" && (s == SpecimenEntryForm || s == SpecimenList))
          || (field == "box_position" && s == SpecimenList))
  {
    RequiredFlag(field, project, s);
    RequiredSurfacesOf(field, project, s);
  }

  lemma RequiredSurfacesOf(field: string, project: string, s: Surface)
    requires project in ProjectNames
    ensures s in RequiredSurfaces(field, project) <==>
      project == "specimen"
      && ((field == "specimen_name" && (s == SpecimenEntryForm || s == SpecimenList))
          || (field == "box_position" && s == SpecimenList))
  {
    if project == "specimen" {
      SpecimenKeys(field);
    } else {
      OtherProjectKeys(field, project);
    }
  }

  lemma RequiredFlag(field: string, project: string, s: Surface)
    ensures FieldMetadataConfig(field, project)[s].required <==> s in RequiredSurfaces(field, project)
  {
    SurfacesComplete();
  }

  /** For the three projects a required surface is always an enabled one. */
  lemma RequiredImpliesEnabled(field: string, project: string, s: Surface)
    requires project in ProjectNames
    ensures FieldMetadataConfig(field, project)[s].required ==> FieldMetadataConfig(field, project)[s].enabled
  {
    RequiredOnly(field, project, s);
  }

  /** Any other project name leaves every surface disabled. */
  lemma UnknownProjectDisabled(field: string, project: string, s: Surface)
    requires project !in ProjectNames
    ensures !FieldMetadataConfig(field, project)[s].enabled
  {
  }

  // ---------------------------------------------------------------- the persisted configuration

  /** The saved extras of one field; Null (or None) where the saved JSON has no value. */
  datatype SavedExtras = SavedExtras(
    matchPrefillEnabled: PhpVal,
    matchPrefillGroups: Option<seq<string>>,
    matchPrefillFields: Option<seq<string>>,
    confirmEnabled: PhpVal,
    noFutureEnabled: PhpVal,
    afterDateEnabled: PhpVal,
    afterDateTarget: PhpVal,
    afterDateMinimum: PhpVal,
    afterDateMaximum: PhpVal,
    afterDateWarningOnly: PhpVal)

  const NoSavedExtras := SavedExtras(Null, None, None, Null, Null, Null, Null, Null, Null, Null)

  /** The saved configuration of one field: a value per surface that has one, default, units, extras. */
  datatype SavedField = SavedField(flags: map<Surface, PhpVal>, fieldDefault: PhpVal, fieldUnits: PhpVal, extras: SavedExtras)

  const NoSavedField := SavedField(map[], Null, Null, NoSavedExtras)

  /** The saved configurations of one project's fields, by field name. */
  type SavedFields = map<string, SavedField>

  /** `$v ?? false`. */
  function OrFalse(v: PhpVal): PhpVal {
    if v.Null? then Bool(false) else v
  }

  /** `$v ?? ""`. */
  function OrBlank(v: PhpVal): PhpVal {
    if v.Null? then Str("") else v
  }

  function SavedFor(saved: SavedFields, field: string): SavedField {
    if field in saved then saved[field] else NoSavedField
  }

  /** A surface's saved value, false when it has none. */
  function SavedFlag(sf: SavedField, s: Surface): PhpVal {
    if s in sf.flags then OrFalse(sf.flags[s]) else Bool(false)
  }

  function InitialFlags(sf: SavedField): map<Surface, PhpVal> {
    map s | s in Surfaces :: SavedFlag(sf, s)
  }

  /** The surfaces the default table marks both enabled and required. */
  function Forced(defaults: SurfaceTable): set<Surface> {
    set s | s in defaults && defaults[s].enabled && defaults[s].required
  }

  /** The flags after every forced surface is set to true. */
  function Synced(defaults: SurfaceTable, flags: map<Surface, PhpVal>): map<Surface, PhpVal> {
    map s | s in flags.Keys + Forced(defaults) :: if s in Forced(defaults) then Bool(true) else flags[s]
  }

  datatype MatchPrefill = MatchPrefill(enabled: PhpVal, groups: seq<string>, fields: seq<string>)

  datatype AfterDate = AfterDate(enabled: PhpVal, target: PhpVal, minimum: PhpVal, maximum: PhpVal, warningOnly: PhpVal)

  /** The extra rules attached to a field; `confirm` and `noFuture` hold their `enabled` value. */
  datatype Extras = Extras(
    matchPrefill: Option<MatchPrefill>,
    confirm: Option<PhpVal>,
    noFuture: Option<PhpVal>,
    afterDate: Option<AfterDate>)

  const NoExtras := Extras(None, None, None, None)

  /** The configuration of one field as sent to the pages. */
  datatype FieldConfig = FieldConfig(flags: map<Surface, PhpVal>, extras: Extras, fieldDefault: PhpVal, fieldUnits: PhpVal)

  /** The extras of a field: only non-infrastructure specimen fields have any. */
  function ExtrasFor(project: string, f: FieldMeta, se: SavedExtras): Extras {
    if project == "specimen" && f.name !in InfrastructureFields then
      var text := f.fieldType == "text";
      var datetime := f.fieldType == "datetime";
      Extras(
        if text && f.name == "specimen_name" then
          Some(MatchPrefill(OrFalse(se.matchPrefillEnabled), se.matchPrefillGroups.GetOr([]), se.matchPrefillFields.GetOr([])))
        else None,
        if text && f.name != "specimen_name" then Some(OrFalse(se.confirmEnabled)) else None,
        if datetime then Some(OrFalse(se.noFutureEnabled)) else None,
        if datetime then
          Some(AfterDate(OrFalse(se.afterDateEnabled), OrBlank(se.afterDateTarget), OrBlank(se.afterDateMinimum),
                         OrBlank(se.afterDateMaximum), OrFalse(se.afterDateWarningOnly)))
        else None)
    else NoExtras
  }

  /** The field configuration of one field, given its saved configuration. */
  function FieldConfigFor(project: string, f: FieldMeta, sf: SavedField): FieldConfig {
    FieldConfig(Synced(FieldMetadataConfig(f.name, project), InitialFlags(sf)), ExtrasFor(project, f, sf.extras),
                sf.fieldDefault, sf.fieldUnits)
  }

  /**
   * Every surface is present in a field configuration; a surface that is required by default
   * is true whatever was saved, and any other surface keeps its saved value, false when none.
   */
  lemma FlagRule(project: string, f: FieldMeta, sf: SavedField, s: Surface)
    requires project in ProjectNames
    ensures s in FieldConfigFor(project, f, sf).flags
    ensures FieldConfigFor(project, f, sf).flags[s] ==
      if project == "specimen"
         && ((f.name == "specimen_name" && (s == SpecimenEntryForm || s == SpecimenList))
             || (f.name == "box_position" && s == SpecimenList))
      then Bool(true)
      else SavedFlag(sf, s)
  {
    RequiredOnly(f.name, project, s);
    RequiredImpliesEnabled(f.name, project, s);
    SurfacesComplete();
  }

  /** A field with no saved configuration shows only its forced surfaces as true. */
  lemma UnsavedFlagsFalse(project: string, f: FieldMeta, s: Surface)
    requires project in ProjectNames
    ensures FieldConfigFor(project, f, NoSavedField).flags[s] == Bool(s in Forced(FieldMetadataConfig(f.name, project)))
  {
    FlagRule(project, f, NoSavedField, s);
    RequiredOnly(f.name, project, s);
    RequiredImpliesEnabled(f.name, project, s);
  }

  /** Which extras a field gets, by project, name and type. */
  lemma ExtrasKinds(project: string, f: FieldMeta, se: SavedExtras)
    ensures var e := ExtrasFor(project, f, se);
      && (project != "specimen" || f.name in InfrastructureFields ==> e == NoExtras)
      && (project == "specimen" && f.name !in InfrastructureFields ==>
            && (e.matchPrefill.Some? <==> f.fieldType == "text" && f.name == "specimen_name")
            && (e.confirm.Some? <==> f.fieldType == "text" && f.name != "specimen_name")
            && (e.noFuture.Some? <==> f.fieldType == "datetime")
            && (e.afterDate.Some? <==> f.fieldType == "datetime"))
  {
  }

  /** Extras with nothing saved default to false, [] and "". */
  lemma ExtrasDefaults(f: FieldMeta)
    requires f.name !in InfrastructureFields
    ensures var e := ExtrasFor("specimen", f, NoSavedExtras);
      && (e.matchPrefill.Some? ==> e.matchPrefill.value == MatchPrefill(Bool(false), [], []))
      && (e.confirm.Some? ==> e.confirm.value == Bool(false))
      && (e.noFuture.Some? ==> e.noFuture.value == Bool(false))
      && (e.afterDate.Some? ==> e.afterDate.value == AfterDate(Bool(false), Str(""), Str(""), Str(""), Bool(false)))
  {
  }

  // ---------------------------------------------------------------- one project's fields

  /** The host's validation types: a label and a client-side regex per type name. */
  datatype ValType = ValType(validationLabel: string, regexJs: string)

  datatype Validation = Validation(vtype: string, validationLabel: Option<string>, regex: Option<string>)

  /** The metadata of one field as sent to the pages, with its default table. */
  datatype FieldMetadata = FieldMetadata(field: FieldMeta, validation: Option<Validation>, config: SurfaceTable)

  const ExcludedTypes: seq<string> := ["calc", "file", "slider", "descriptive", "sql"]

  /** Whether a field takes part in the configuration: not a form status and not of an excluded type. */
  predicate Shown(proj: ProjectMeta, f: FieldMeta) {
    !proj.IsFormStatus(f.name) && f.elementType !in ExcludedTypes
  }

  function MetadataFor(project: string, f: FieldMeta, valTypes: map<string, ValType>): FieldMetadata {
    var v := f.validation;
    FieldMetadata(
      f,
      if EmptyStr(v) then None
      else Some(Validation(v, if v in valTypes then Some(valTypes[v].validationLabel) else None,
                           if v in valTypes then Some(valTypes[v].regexJs) else None)),
      FieldMetadataConfig(f.name, project))
  }

  datatype FieldConfigs = FieldConfigs(metadata: Assoc<FieldMetadata>, config: Assoc<FieldConfig>)

  /** The metadata and configuration built from `fields`, in order, each field put under its name. */
  function BuildFieldConfigs(project: string, proj: ProjectMeta, fields: seq<FieldMeta>, saved: SavedFields,
                             valTypes: map<string, ValType>): FieldConfigs
    decreases |fields|
  {
    if |fields| == 0 then FieldConfigs([], [])
    else
      var prev := BuildFieldConfigs(project, proj, fields[..|fields| - 1], saved, valTypes);
      var f := fields[|fields| - 1];
      if Shown(proj, f) then
        FieldConfigs(Put(prev.metadata, f.name, MetadataFor(project, f, valTypes)),
                     Put(prev.config, f.name, FieldConfigFor(project, f, SavedFor(saved, f.name))))
      else prev
  }

  /** The projects of the established context, or the error each getter raises. */
  datatype ContextProjects = ContextProjects(box: Result<ProjectMeta>, specimen: Result<ProjectMeta>, shipment: Result<ProjectMeta>)

  const UnknownProjectMessage := "Cannot get field configuration - unknown project name!"

  function ProjectNamed(name: string, projects: ContextProjects): (r: Result<ProjectMeta>)
    ensures name !in ProjectNames ==> r == Err([UnknownProjectMessage])
  {
    if name == "box" then projects.box
    else if name == "specimen" then projects.specimen
    else if name == "shipment" then projects.shipment
    else Err([UnknownProjectMessage])
  }

  function FieldConfigForProject(name: string, projects: ContextProjects, saved: SavedFields,
                                 valTypes: map<string, ValType>): Result<FieldConfigs>
  {
    match ProjectNamed(name, projects)
    case Err(e) => Err(e)
    case Ok(p) => Ok(BuildFieldConfigs(name, p, p.fields, saved, valTypes))
  }

  /** Metadata and configuration are always keyed by the same field names, in the same order. */
  lemma {:induction false} SameFieldNames(project: string, proj: ProjectMeta, fields: seq<FieldMeta>,
                                          saved: SavedFields, valTypes: map<string, ValType>)
    ensures var b := BuildFieldConfigs(project, proj, fields, saved, valTypes);
      KeysOf(b.metadata) == KeysOf(b.config)
    decreases |fields|
  {
    if |fields| > 0 {
      SameFieldNames(project, proj, fields[..|fields| - 1], saved, valTypes);
    }
  }

  /** The fields that appear are exactly the shown ones: form-status fields and excluded types never do. */
  lemma {:induction false} ShownFieldsListed(project: string, proj: ProjectMeta, fields: seq<FieldMeta>,
                                             saved: SavedFields, valTypes: map<string, ValType>, name: string)
    ensures name in KeysOf(BuildFieldConfigs(project, proj, fields, saved, valTypes).config) <==>
      ShownNamed(proj, fields, name)
    decreases |fields|
  {
    if |fields| > 0 {
      var init := fields[..|fields| - 1];
      ShownFieldsListed(project, proj, init, saved, valTypes, name);
      ConfigKeysStep(project, proj, fields, saved, valTypes, name);
      ShownNamedStep(proj, fields, name);
    }
  }

  /** One more field adds its name to the configuration keys exactly when it is shown. */
  lemma ConfigKeysStep(project: string, proj: ProjectMeta, fields: seq<FieldMeta>,
                       saved: SavedFields, valTypes: map<string, ValType>, name: string)
    requires |fields| > 0
    ensures var f := fields[|fields| - 1];
      name in KeysOf(BuildFieldConfigs(project, proj, fields, saved, valTypes).config)
      <==> name in KeysOf(BuildFieldConfigs(project, proj, fields[..|fields| - 1], saved, valTypes).config)
           || (Shown(proj, f) && f.name == name)
  {
  }

  /** Whether some shown field of `fields` has the given name. */
  predicate ShownNamed(proj: ProjectMeta, fields: seq<FieldMeta>, name: string) {
    exists i :: 0 <= i < |fields| && fields[i].name == name && Shown(proj, fields[i])
  }

  lemma ShownNamedStep(proj: ProjectMeta, fields: seq<FieldMeta>, name: string)
    requires |fields| > 0
    ensures var f := fields[|fields| - 1];
      ShownNamed(proj, fields, name)
      <==> ShownNamed(proj, fields[..|fields| - 1], name) || (Shown(proj, f) && f.name == name)
  {
    var init := fields[..|fields| - 1];
    if ShownNamed(proj, init, name) {
      var i :| 0 <= i < |init| && init[i].name == name && Shown(proj, init[i]);
      assert fields[i] == init[i];
    }
    if ShownNamed(proj, fields, name) {
      var i :| 0 <= i < |fields| && fields[i].name == name && Shown(proj, fields[i]);
      if i < |init| {
        assert init[i] == fields[i];
      }
    }
  }

  /** A shown field that is the last of its name carries its own configuration. */
  lemma {:induction false} ShownFieldConfig(project: string, proj: ProjectMeta, fields: seq<FieldMeta>,
                                            saved: SavedFields, valTypes: map<string, ValType>, i: nat)
    requires i < |fields| && Shown(proj, fields[i])
    requires forall j :: i < j < |fields| ==> fields[j].name != fields[i].name
    ensures Get(BuildFieldConfigs(project, proj, fields, saved, valTypes).config, fields[i].name)
            == Some(FieldConfigFor(project, fields[i], SavedFor(saved, fields[i].name)))
    decreases |fields|
  {
    var init := fields[..|fields| - 1];
    var f := fields[|fields| - 1];
    var prev := BuildFieldConfigs(project, proj, init, saved, valTypes);
    if i < |fields| - 1 {
      assert init[i] == fields[i];
      ShownFieldConfig(project, proj, init, saved, valTypes, i);
      if Shown(proj, f) {
        GetAfterPut(prev.config, f.name, FieldConfigFor(project, f, SavedFor(saved, f.name)), fields[i].name);
      }
    }
  }

  /** Loops over the project's dictionary as the plugin does, forcing required surfaces field by field. */
  method GetFieldConfigForProject(name: string, projects: ContextProjects, saved: SavedFields,
                                  valTypes: map<string, ValType>) returns (r: Result<FieldConfigs>)
    ensures r == FieldConfigForProject(name, projects, saved, valTypes)
  {
    var found := ProjectNamed(name, projects);
    if found.Err? {
      return Err(found.errors);
    }
    var proj := found.value;
    var metadata: Assoc<FieldMetadata> := [];
    var config: Assoc<FieldConfig> := [];
    var i := 0;
    while i < |proj.fields|
      invariant 0 <= i <= |proj.fields|
      invariant FieldConfigs(metadata, config) == BuildFieldConfigs(name, proj, proj.fields[..i], saved, valTypes)
    {
      var f := proj.fields[i];
      assert proj.fields[..i + 1][..i] == proj.fields[..i];
      if Shown(proj, f) {
        var meta := MetadataFor(name, f, valTypes);
        var sf := SavedFor(saved, f.name);
        var flags := SyncDefaults(meta.config, InitialFlags(sf));
        metadata := Put(metadata, f.name, meta);
        config := Put(config, f.name, FieldConfig(flags, ExtrasFor(name, f, sf.extras), sf.fieldDefault, sf.fieldUnits));
      }
      i := i + 1;
    }
    assert proj.fields[..i] == proj.fields;
    return Ok(FieldConfigs(metadata, config));
  }

  /** Sets every surface that the default table marks enabled and required to true. */
  method SyncDefaults(defaults: SurfaceTable, flags: map<Surface, PhpVal>) returns (out: map<Surface, PhpVal>)
    ensures out == Synced(defaults, flags)
  {
    out := flags;
    for i := 0 to |Surfaces|
      invariant forall s :: s in out <==> s in flags || (s in Surfaces[..i] && s in Forced(defaults))
      invariant forall s :: s in out ==> out[s] == if s in Surfaces[..i] && s in Forced(defaults) then Bool(true) else flags[s]
    {
      var s := Surfaces[i];
      if s in defaults && defaults[s].enabled && defaults[s].required {
        out := out[s := Bool(true)];
      }
    }
    SurfacesComplete();
    assert Surfaces[..|Surfaces|] == Surfaces;
  }

  // ---------------------------------------------------------------- the module configuration blob

  /** The general settings of the module configuration. */
  datatype General = General(studyName: PhpVal, boxNameRegex: PhpVal, specimenNameRegex: PhpVal, warningAckField: PhpVal)

  /** The saved module configuration: general settings and, per project name, its saved fields. */
  datatype ModuleConfig = ModuleConfig(general: General, fields: map<string, SavedFields>)

  const EmptyModuleConfig := ModuleConfig(General(Null, Null, Null, Null), map[])

  const ModuleConfigKey := "module-config"

  /** Project settings: (project id, setting name) to value. */
  type Settings = map<(string, string), ModuleConfig>

  /** The saved blob of a project, or the empty configuration "{}" when none is saved. */
  function SavedConfig(settings: Settings, projectId: string): ModuleConfig {
    if (projectId, ModuleConfigKey) in settings then settings[(projectId, ModuleConfigKey)] else EmptyModuleConfig
  }

  function SavedFieldsOf(mc: ModuleConfig, projectName: string): SavedFields {
    if projectName in mc.fields then mc.fields[projectName] else map[]
  }

  datatype ByProject<T> = ByProject(box: T, specimen: T, shipment: T)
  {
    function Of(name: string): T {
      if name == "box" then box else if name == "specimen" then specimen else shipment
    }

    function With(name: string, v: T): ByProject<T> {
      if name == "box" then this.(box := v) else if name == "specimen" then this.(specimen := v) else this.(shipment := v)
    }
  }

  datatype State = State(general: General, fields: ByProject<Assoc<FieldConfig>>)

  datatype ModuleConfigView = ModuleConfigView(metadata: ByProject<Assoc<FieldMetadata>>, state: State)

  function GeneralState(g: General): General {
    g.(warningAckField := OrBlank(g.warningAckField))
  }

  /** The module configuration of the established context, read from the Box project's setting. */
  function ModuleConfigOf(projects: ContextProjects, settings: Settings, valTypes: map<string, ValType>): (r: Result<ModuleConfigView>)
    ensures projects.box.Err? ==> r == Err(projects.box.errors)
    ensures r.Ok? <==> projects.box.Ok? && projects.specimen.Ok? && projects.shipment.Ok?
    // each project's metadata and configuration list the same fields, in the same order
    ensures r.Ok? ==>
      && KeysOf(r.value.metadata.box) == KeysOf(r.value.state.fields.box)
      && KeysOf(r.value.metadata.specimen) == KeysOf(r.value.state.fields.specimen)
      && KeysOf(r.value.metadata.shipment) == KeysOf(r.value.state.fields.shipment)
  {
    match projects.box
    case Err(e) => Err(e)
    case Ok(boxProject) =>
      var mc := SavedConfig(settings, boxProject.id);
      var sp := FieldConfigForProject("specimen", projects, SavedFieldsOf(mc, "specimen"), valTypes);
      // the Box project is already known to be available, so its step cannot fail
      var bx := BuildFieldConfigs("box", boxProject, boxProject.fields, SavedFieldsOf(mc, "box"), valTypes);
      var sh := FieldConfigForProject("shipment", projects, SavedFieldsOf(mc, "shipment"), valTypes);
      if sp.Err? then Err(sp.errors)
      else if sh.Err? then Err(sh.errors)
      else
        var spP, shP := projects.specimen.value, projects.shipment.value;
        SameFieldNames("specimen", spP, spP.fields, SavedFieldsOf(mc, "specimen"), valTypes);
        SameFieldNames("box", boxProject, boxProject.fields, SavedFieldsOf(mc, "box"), valTypes);
        SameFieldNames("shipment", shP, shP.fields, SavedFieldsOf(mc, "shipment"), valTypes);
        Ok(ModuleConfigView(
          ByProject(bx.metadata, sp.value.metadata, sh.value.metadata),
          State(GeneralState(mc.general), ByProject(bx.config, sp.value.config, sh.value.config))))
  }

  /**
   * The module configuration is available exactly when all three projects are; it then holds
   * each project's configuration built from its own saved fields, and the general settings
   * with the warning field defaulting to "".
   */
  lemma ModuleConfigCoversProjects(projects: ContextProjects, settings: Settings, valTypes: map<string, ValType>, name: string)
    requires name in ProjectNames
    ensures ModuleConfigOf(projects, settings, valTypes).Ok? <==>
      projects.box.Ok? && projects.specimen.Ok? && projects.shipment.Ok?
    ensures ModuleConfigOf(projects, settings, valTypes).Ok? ==>
      var v := ModuleConfigOf(projects, settings, valTypes).value;
      var mc := SavedConfig(settings, projects.box.value.id);
      var p := ProjectNamed(name, projects).value;
      && v.state.fields.Of(name) == BuildFieldConfigs(name, p, p.fields, SavedFieldsOf(mc, name), valTypes).config
      && v.metadata.Of(name) == BuildFieldConfigs(name, p, p.fields, SavedFieldsOf(mc, name), valTypes).metadata
      && v.state.general.studyName == mc.general.studyName
      && (mc.general.warningAckField.Null? ==> v.state.general.warningAckField == Str(""))
  {
  }

  /** Saving replaces the whole blob: reading it back yields the payload's settings and fields. */
  lemma SaveThenRead(projects: ContextProjects, settings: Settings, payload: ModuleConfig,
                     valTypes: map<string, ValType>, name: string)
    requires projects.box.Ok? && name in ProjectNames
    ensures var r := ModuleConfigOf(projects, settings[(projects.box.value.id, ModuleConfigKey) := payload], valTypes);
      r.Ok? ==>
        var p := ProjectNamed(name, projects).value;
        && r.value.state.general == GeneralState(payload.general)
        && r.value.state.fields.Of(name) == BuildFieldConfigs(name, p, p.fields, SavedFieldsOf(payload, name), valTypes).config
  {
    var settings' := settings[(projects.box.value.id, ModuleConfigKey) := payload];
    assert SavedConfig(settings', projects.box.value.id) == payload;
    ModuleConfigCoversProjects(projects, settings', valTypes, name);
  }

  /** The project settings store holding the module configuration blob. */
  class ModuleSettings {
    var settings: Settings

    constructor (initial: Settings)
      ensures settings == initial
    {
      settings := initial;
    }

    /** Saves the whole payload under the Box project's "module-config" setting. */
    method HandleSaveModuleConfig(projects: ContextProjects, payload: ModuleConfig) returns (errors: seq<string>)
      modifies this
      ensures projects.box.Err? ==> errors == projects.box.errors && settings == old(settings)
      ensures projects.box.Ok? ==>
        errors == [] && settings == old(settings)[(projects.box.value.id, ModuleConfigKey) := payload]
    {
      match projects.box
      case Err(e) =>
        errors := e;
      case Ok(boxProject) =>
        settings := settings[(boxProject.id, ModuleConfigKey) := payload];
        errors := [];
    }

    /** Builds the configuration of the three projects in the order specimen, box, shipment. */
    method GetModuleConfig(projects: ContextProjects, valTypes: map<string, ValType>) returns (r: Result<ModuleConfigView>)
      ensures r == ModuleConfigOf(projects, settings, valTypes)
    {
      if projects.box.Err? {
        return Err(projects.box.errors);
      }
      var mc := SavedConfig(settings, projects.box.value.id);
      var general := GeneralState(mc.general);
      var metadata: ByProject<Assoc<FieldMetadata>> := ByProject([], [], []);
      var fields: ByProject<Assoc<FieldConfig>> := ByProject([], [], []);
      for i := 0 to |ProjectNames|
        invariant forall j :: 0 <= j < i ==>
          var fc := FieldConfigForProject(ProjectNames[j], projects, SavedFieldsOf(mc, ProjectNames[j]), valTypes);
          fc.Ok? && metadata.Of(ProjectNames[j]) == fc.value.metadata && fields.Of(ProjectNames[j]) == fc.value.config
      {
        var name := ProjectNames[i];
        var fc := GetFieldConfigForProject(name, projects, SavedFieldsOf(mc, name), valTypes);
        if fc.Err? {
          assert ProjectNames[0] == "specimen" && ProjectNames[1] == "box" && ProjectNames[2] == "shipment";
          assert i == 0 || i == 1 || i == 2;
          return Err(fc.errors);
        }
        metadata := metadata.With(name, fc.value.metadata);
        fields := fields.With(name, fc.value.config);
      }
      assert ProjectNames[0] == "specimen" && ProjectNames[1] == "box" && ProjectNames[2] == "shipment";
      assert metadata == ByProject(metadata.Of("box"), metadata.Of("specimen"), metadata.Of("shipment"));
      assert fields == ByProject(fields.Of("box"), fields.Of("specimen"), fields.Of("shipment"));
      return Ok(ModuleConfigView(metadata, State(general, fields)));
    }
  }
}
