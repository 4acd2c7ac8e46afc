/**
 * The configuration resolver: one configuration per settings index with its validation
 * errors, the reverse map from project id to the indexes (and roles) that reference it,
 * the cross-configuration "too many configurations" check, resolution of a project id to
 * its single configuration, and the set-once request context.
 */
module ModuleUtils {
  import opened Wrappers
  import opened Php

  /** The three project roles of a configuration; the Box project is the "plate" project. */
  datatype Role = Plate | Specimen | Shipment

  /** The value stored for a role in the reverse project map. */
  function RoleSetting(r: Role): string {
    match r
    case Plate => "plate_project_id"
    case Specimen => "specimen_project_id"
    case Shipment => "shipment_project_id"
  }

  function RoleLabel(r: Role): string {
    match r
    case Plate => "Box"
    case Specimen => "Specimen"
    case Shipment => "Shipment"
  }

  /** The system settings at one index of the repeatable `project_configs` setting. */
  datatype IndexSettings = IndexSettings(
    studyName: PhpVal,
    plateProjectId: PhpVal,
    specimenProjectId: PhpVal,
    shipmentProjectId: PhpVal,
    plateSize: PhpVal,
    useTempBoxType: PhpVal,
    numVisits: PhpVal,
    numSpecimens: PhpVal,
    defaultVolume: PhpVal,
    datetimeFormat: PhpVal,
    boxNameRegex: PhpVal,
    specimenNameRegex: PhpVal,
    minutesMax: PhpVal)
  {
    function ProjectId(r: Role): PhpVal {
      match r
      case Plate => plateProjectId
      case Specimen => specimenProjectId
      case Shipment => shipmentProjectId
    }
  }

  /** The extra settings copied only for temporary-box configurations. */
  datatype TempBox = TempBox(numVisits: PhpVal, numSpecimens: PhpVal)

  datatype ConfigError =
    | ProjectReused
    | StudyNameMissing
    | ProjectMissing(role: Role)
    | ProjectNotEnabled(role: Role, id: string)
    | BoxSizeMissing
    | MinutesMaxInvalid
    | TotalVisitsMissing
    | SpecimensPerVisitMissing
    | BoxNameRegexMissing
    | SpecimenNameRegexMissing
    | TooManyConfigurations(id: string)
  {
    /** The text the plugin reports for this error. */
    function Message(): string {
      match this
      case ProjectReused => "A project is used more than once within this configuration!"
      case StudyNameMissing => "Configuration value missing: <code>Study Name</code>"
      case ProjectMissing(r) => "The " + RoleLabel(r) + " Project configuration is missing!"
      case ProjectNotEnabled(r, id) =>
        "The module has not been enabled on the [<code>" + id + "</code>] " + RoleLabel(r) + " Project."
      case BoxSizeMissing => "Configuration value missing: <code>Box Size</code>"
      case MinutesMaxInvalid =>
        "Configuration value <code>[collected_to_processed_minutes_max]</code> invalid.  Must be numeric and greater than zero!"
      case TotalVisitsMissing => "Configuration value missing: <code>Total Visits</code>"
      case SpecimensPerVisitMissing => "Configuration value missing: <code>Specimens Per Visit</code>"
      case BoxNameRegexMissing => "Configuration value missing: <code>Box Name RegEx</code>"
      case SpecimenNameRegexMissing => "Configuration value missing: <code>Specimen Name RegEx</code>"
      case TooManyConfigurations(id) => "The Project (id=" + id + ") is referenced in too many configurations."
    }
  }

  datatype Configuration = Configuration(
    studyName: PhpVal,
    plateProjectId: PhpVal,
    specimenProjectId: PhpVal,
    shipmentProjectId: PhpVal,
    plateProjectEnabled: bool,
    specimenProjectEnabled: bool,
    shipmentProjectEnabled: bool,
    plateSize: PhpVal,
    defaultVolume: PhpVal,
    datetimeFormat: PhpVal,
    boxNameRegex: PhpVal,
    specimenNameRegex: PhpVal,
    useTempBoxType: bool,
    minutesMax: PhpVal,
    tempBox: Option<TempBox>,
    errors: seq<ConfigError>)
  {
    function ProjectId(r: Role): PhpVal {
      match r
      case Plate => plateProjectId
      case Specimen => specimenProjectId
      case Shipment => shipmentProjectId
    }

    function Enabled(r: Role): bool {
      match r
      case Plate => plateProjectEnabled
      case Specimen => specimenProjectEnabled
      case Shipment => shipmentProjectEnabled
    }
  }

  /** `array_flip(getProjectsWithModuleEnabled())`, as a set of array keys. */
  function EnabledKeys(projects: seq<PhpVal>): set<string> {
    set p | p in projects :: ArrayKey(p)
  }

  // ---------------------------------------------------------------- one configuration

  /** `array_filter` of the three project ids, compared as strings by `array_unique`. */
  function NonEmptyIds(s: IndexSettings): seq<string> {
    (if Empty(s.plateProjectId) then [] else [ToStr(s.plateProjectId)])
    + (if Empty(s.specimenProjectId) then [] else [ToStr(s.specimenProjectId)])
    + (if Empty(s.shipmentProjectId) then [] else [ToStr(s.shipmentProjectId)])
  }

  /** The errors for one role: a missing id, or an id the module is not enabled on. */
  function RoleErrors(s: IndexSettings, r: Role, enabled: set<string>): (errs: seq<ConfigError>)
    ensures forall e :: e in errs ==> (e.ProjectMissing? || e.ProjectNotEnabled?) && e.role == r
  {
    var id := s.ProjectId(r);
    if Empty(id) then [ProjectMissing(r)]
    else if ArrayKey(id) !in enabled then [ProjectNotEnabled(r, ToStr(id))]
    else []
  }

  predicate MinutesMaxRejected(v: PhpVal) {
    !Empty(v) && (!IsNumeric(v) || !IsPositiveNumber(v))
  }

  predicate IsRoleError(e: ConfigError) {
    e.ProjectMissing? || e.ProjectNotEnabled?
  }

  /** The errors checked before the project roles: a repeated project and a missing study name. */
  function LeadingErrors(s: IndexSettings): (errs: seq<ConfigError>)
    ensures forall e :: e in errs ==> !IsRoleError(e)
  {
    (if |NonEmptyIds(s)| != |Unique(NonEmptyIds(s))| then [ProjectReused] else [])
    + (if Empty(s.studyName) then [StudyNameMissing] else [])
  }

  function TempBoxErrors(s: IndexSettings): (errs: seq<ConfigError>)
    ensures forall e :: e in errs ==> !IsRoleError(e)
  {
    if s.useTempBoxType == Bool(true) then
      (if Empty(s.numVisits) then [TotalVisitsMissing] else [])
      + (if Empty(s.numSpecimens) then [SpecimensPerVisitMissing] else [])
    else []
  }

  /** The errors checked after the project roles, in order. */
  function TrailingErrors(s: IndexSettings): (errs: seq<ConfigError>)
    ensures forall e :: e in errs ==> !IsRoleError(e)
  {
    (if Empty(s.plateSize) then [BoxSizeMissing] else [])
    + (if MinutesMaxRejected(s.minutesMax) then [MinutesMaxInvalid] else [])
    + TempBoxErrors(s)
    + (if Empty(s.boxNameRegex) then [BoxNameRegexMissing] else [])
    + (if Empty(s.specimenNameRegex) then [SpecimenNameRegexMissing] else [])
  }

  /** The errors found by validating one index on its own, in the order they are appended. */
  function LocalErrors(s: IndexSettings, enabled: set<string>): seq<ConfigError> {
    LeadingErrors(s)
    + RoleErrors(s, Plate, enabled) + RoleErrors(s, Specimen, enabled) + RoleErrors(s, Shipment, enabled)
    + TrailingErrors(s)
  }

  /** The configuration built for one index, before the cross-configuration check. */
  function BuildConfig(s: IndexSettings, enabled: set<string>): Configuration {
    var temp := s.useTempBoxType == Bool(true);
    Configuration(
      s.studyName, s.plateProjectId, s.specimenProjectId, s.shipmentProjectId,
      ArrayKey(s.plateProjectId) in enabled,
      ArrayKey(s.specimenProjectId) in enabled,
      ArrayKey(s.shipmentProjectId) in enabled,
      s.plateSize, s.defaultVolume, s.datetimeFormat, s.boxNameRegex, s.specimenNameRegex,
      temp, s.minutesMax,
      if temp then Some(TempBox(s.numVisits, s.numSpecimens)) else None,
      LocalErrors(s, enabled))
  }

  lemma AppendAssoc<T>(a: seq<T>, b: seq<T>, c: seq<T>, d: seq<T>)
    ensures a + b + c + d == a + (b + c + d)
  {
  }

  /** Membership in five appended lists. */
  lemma InAppended<T>(a: seq<T>, b: seq<T>, c: seq<T>, d: seq<T>, f: seq<T>, x: T)
    ensures x in a + b + c + d + f <==> x in a || x in b || x in c || x in d || x in f
  {
  }

  /** An error that is not about a project role comes from the checks before or after the roles. */
  lemma NonRoleErrorIn(s: IndexSettings, enabled: set<string>, e: ConfigError)
    requires !IsRoleError(e)
    ensures e in BuildConfig(s, enabled).errors <==> e in LeadingErrors(s) || e in TrailingErrors(s)
  {
    var p, sp, sh := RoleErrors(s, Plate, enabled), RoleErrors(s, Specimen, enabled), RoleErrors(s, Shipment, enabled);
    InAppended(LeadingErrors(s), p, sp, sh, TrailingErrors(s), e);
    assert e !in p && e !in sp && e !in sh;
  }

  /** The "used more than once" error appears exactly when two non-empty ids coincide. */
  lemma ReusedIffRepeatedId(s: IndexSettings, enabled: set<string>)
    ensures ProjectReused in BuildConfig(s, enabled).errors <==> !Distinct(NonEmptyIds(s))
  {
    var ids := NonEmptyIds(s);
    UniqueKeepsAllIffDistinct(ids);
    ReusedIsLeading(s);
    NonRoleErrorIn(s, enabled, ProjectReused);
  }

  lemma ReusedIsLeading(s: IndexSettings)
    ensures ProjectReused in LeadingErrors(s) <==> |NonEmptyIds(s)| != |Unique(NonEmptyIds(s))|
    ensures ProjectReused !in TrailingErrors(s)
  {
    InAppended(if Empty(s.plateSize) then [BoxSizeMissing] else [],
               if MinutesMaxRejected(s.minutesMax) then [MinutesMaxInvalid] else [],
               TempBoxErrors(s),
               if Empty(s.boxNameRegex) then [BoxNameRegexMissing] else [],
               if Empty(s.specimenNameRegex) then [SpecimenNameRegexMissing] else [],
               ProjectReused);
  }

  /** Per role: a missing id gives the "missing" error, an id not enabled the "not enabled" error, never both. */
  lemma MissingOrNotEnabled(s: IndexSettings, r: Role, enabled: set<string>)
    ensures var errs := BuildConfig(s, enabled).errors;
      && (ProjectMissing(r) in errs <==> Empty(s.ProjectId(r)))
      && ((exists id :: ProjectNotEnabled(r, id) in errs)
          <==> !Empty(s.ProjectId(r)) && ArrayKey(s.ProjectId(r)) !in enabled)
      && !(ProjectMissing(r) in errs && exists id :: ProjectNotEnabled(r, id) in errs)
  {
    var errs := BuildConfig(s, enabled).errors;
    var mine := RoleErrors(s, r, enabled);
    RoleErrorIn(s, enabled, ProjectMissing(r));
    forall id ensures ProjectNotEnabled(r, id) in errs <==> ProjectNotEnabled(r, id) in mine {
      RoleErrorIn(s, enabled, ProjectNotEnabled(r, id));
    }
    if !Empty(s.ProjectId(r)) && ArrayKey(s.ProjectId(r)) !in enabled {
      assert ProjectNotEnabled(r, ToStr(s.ProjectId(r))) in mine;
    }
  }

  /** A role error is reported exactly when the checks of its own role report it. */
  lemma RoleErrorIn(s: IndexSettings, enabled: set<string>, e: ConfigError)
    requires IsRoleError(e)
    ensures e in BuildConfig(s, enabled).errors <==> e in RoleErrors(s, e.role, enabled)
  {
    var p, sp, sh := RoleErrors(s, Plate, enabled), RoleErrors(s, Specimen, enabled), RoleErrors(s, Shipment, enabled);
    InAppended(LeadingErrors(s), p, sp, sh, TrailingErrors(s), e);
    assert e !in LeadingErrors(s) && e !in TrailingErrors(s);
    assert e in p ==> e.role == Plate;
    assert e in sp ==> e.role == Specimen;
    assert e in sh ==> e.role == Shipment;
  }

  /** The temporary-box flag is set only by a literal `true`, and only then are visits and specimens copied and required. */
  lemma TempBoxOnlyWhenTrue(s: IndexSettings, enabled: set<string>)
    ensures var c := BuildConfig(s, enabled);
      (c.useTempBoxType <==> s.useTempBoxType == Bool(true))
      && (c.tempBox.Some? <==> c.useTempBoxType)
      && (c.tempBox.Some? ==> c.tempBox.value == TempBox(s.numVisits, s.numSpecimens))
      && (TotalVisitsMissing in c.errors <==> c.useTempBoxType && Empty(s.numVisits))
      && (SpecimensPerVisitMissing in c.errors <==> c.useTempBoxType && Empty(s.numSpecimens))
  {
    NonRoleErrorIn(s, enabled, TotalVisitsMissing);
    NonRoleErrorIn(s, enabled, SpecimensPerVisitMissing);
    TempBoxErrorsTrailing(s, TotalVisitsMissing);
    TempBoxErrorsTrailing(s, SpecimensPerVisitMissing);
  }

  /** The two temporary-box errors come only from the temporary-box checks. */
  lemma TempBoxErrorsTrailing(s: IndexSettings, e: ConfigError)
    requires e == TotalVisitsMissing || e == SpecimensPerVisitMissing
    ensures e !in LeadingErrors(s)
    ensures e in TrailingErrors(s) <==> e in TempBoxErrors(s)
    ensures TotalVisitsMissing in TempBoxErrors(s) <==> s.useTempBoxType == Bool(true) && Empty(s.numVisits)
    ensures SpecimensPerVisitMissing in TempBoxErrors(s) <==> s.useTempBoxType == Bool(true) && Empty(s.numSpecimens)
  {
    InAppended(if Empty(s.plateSize) then [BoxSizeMissing] else [],
      if MinutesMaxRejected(s.minutesMax) then [MinutesMaxInvalid] else [],
      TempBoxErrors(s),
      if Empty(s.boxNameRegex) then [BoxNameRegexMissing] else [],
      if Empty(s.specimenNameRegex) then [SpecimenNameRegexMissing] else [], e);
  }

  /** An empty maximum is accepted; any other value must be numeric and positive. */
  lemma MinutesMaxRule(s: IndexSettings, enabled: set<string>)
    ensures MinutesMaxInvalid in BuildConfig(s, enabled).errors
      <==> !Empty(s.minutesMax) && (!IsNumeric(s.minutesMax) || !IsPositiveNumber(s.minutesMax))
  {
    NonRoleErrorIn(s, enabled, MinutesMaxInvalid);
    MinutesMaxTrailing(s);
  }

  lemma MinutesMaxTrailing(s: IndexSettings)
    ensures MinutesMaxInvalid !in LeadingErrors(s)
    ensures MinutesMaxInvalid in TrailingErrors(s) <==> MinutesMaxRejected(s.minutesMax)
  {
    InAppended(if Empty(s.plateSize) then [BoxSizeMissing] else [],
      if MinutesMaxRejected(s.minutesMax) then [MinutesMaxInvalid] else [],
      TempBoxErrors(s),
      if Empty(s.boxNameRegex) then [BoxNameRegexMissing] else [],
      if Empty(s.specimenNameRegex) then [SpecimenNameRegexMissing] else [], MinutesMaxInvalid);
  }

  // ---------------------------------------------------------------- the reverse project map

  /** The reverse-map key of a project id; empty ids are not recorded. */
  function KeyOf(id: PhpVal): Option<string> {
    if Empty(id) then None else Some(ArrayKey(id))
  }

  function KeySet(key: Option<string>): set<string> {
    if key.None? then {} else {key.value}
  }

  function Keys(s: IndexSettings): set<string> {
    KeySet(KeyOf(s.plateProjectId)) + KeySet(KeyOf(s.specimenProjectId)) + KeySet(KeyOf(s.shipmentProjectId))
  }

  /** The role recorded for `key` at one index: the last of plate, specimen, shipment that uses it. */
  function RoleOf(s: IndexSettings, key: string): (r: Option<Role>)
    ensures r.Some? <==> key in Keys(s)
  {
    if KeyOf(s.shipmentProjectId) == Some(key) then Some(Shipment)
    else if KeyOf(s.specimenProjectId) == Some(key) then Some(Specimen)
    else if KeyOf(s.plateProjectId) == Some(key) then Some(Plate)
    else None
  }

  function ReferencedKeys(ss: seq<IndexSettings>): (ks: set<string>)
    ensures forall key :: key in ks <==> exists j :: 0 <= j < |ss| && key in Keys(ss[j])
  {
    if |ss| == 0 then {}
    else
      var p := ss[..|ss| - 1];
      var ks := ReferencedKeys(p) + Keys(ss[|ss| - 1]);
      assert forall j :: 0 <= j < |p| ==> p[j] == ss[j];
      ks
  }

  /** The indexes that reference `key`, each with the role it is recorded under. */
  function References(ss: seq<IndexSettings>, key: string): map<nat, Role> {
    map j: nat | j < |ss| && RoleOf(ss[j], key).Some? :: RoleOf(ss[j], key).value
  }

  /** What the reverse project map holds after the indexes `ss` were processed. */
  function ProjectMaps(ss: seq<IndexSettings>): map<string, map<nat, Role>> {
    map key | key in ReferencedKeys(ss) :: References(ss, key)
  }

  /** `$maps[$key][$k] = $role`. */
  function Refer(maps: map<string, map<nat, Role>>, key: string, k: nat, r: Role): map<string, map<nat, Role>> {
    maps[key := (if key in maps then maps[key] else map[])[k := r]]
  }

  function Inner(maps: map<string, map<nat, Role>>, key: string): map<nat, Role> {
    if key in maps then maps[key] else map[]
  }

  /** `$maps[$key][$k] = $role` when the id is not empty. */
  function ReferIf(maps: map<string, map<nat, Role>>, key: Option<string>, k: nat, r: Role): map<string, map<nat, Role>> {
    if key.None? then maps else Refer(maps, key.value, k, r)
  }

  /** The three conditional updates the build loop makes for index `k`. */
  function ReferAll(maps: map<string, map<nat, Role>>, k: nat, s: IndexSettings): map<string, map<nat, Role>> {
    var m1 := ReferIf(maps, KeyOf(s.plateProjectId), k, Plate);
    var m2 := ReferIf(m1, KeyOf(s.specimenProjectId), k, Specimen);
    ReferIf(m2, KeyOf(s.shipmentProjectId), k, Shipment)
  }

  /** One more index adds its own entry, if any, to the references of a key. */
  lemma ReferencesExtend(ss: seq<IndexSettings>, s: IndexSettings, key: string)
    ensures References(ss + [s], key)
      == match RoleOf(s, key)
         case Some(r) => References(ss, key)[|ss| := r]
         case None => References(ss, key)
  {
    var ss' := ss + [s];
    var before := References(ss, key);
    var after := References(ss', key);
    var expected := match RoleOf(s, key)
      case Some(r) => before[|ss| := r]
      case None => before;
    forall j: nat ensures (j in after <==> j in expected) && (j in after ==> after[j] == expected[j]) {
      if j < |ss| {
        assert ss'[j] == ss[j];
      } else if j == |ss| {
        assert ss'[j] == s;
      }
    }
  }

  lemma ReferIfAt(maps: map<string, map<nat, Role>>, key: Option<string>, k: nat, r: Role, x: string)
    ensures x in ReferIf(maps, key, k, r) <==> x in maps || key == Some(x)
    ensures Inner(ReferIf(maps, key, k, r), x) == if key == Some(x) then Inner(maps, x)[k := r] else Inner(maps, x)
  {
  }

  /** What the three conditional updates do to one key. */
  lemma ReferAllAt(maps: map<string, map<nat, Role>>, k: nat, s: IndexSettings, key: string)
    ensures key in ReferAll(maps, k, s) <==> key in maps || key in Keys(s)
    ensures key in ReferAll(maps, k, s) ==>
      ReferAll(maps, k, s)[key]
        == match RoleOf(s, key)
           case Some(r) => Inner(maps, key)[k := r]
           case None => maps[key]
  {
    var kp, kq, ku := KeyOf(s.plateProjectId), KeyOf(s.specimenProjectId), KeyOf(s.shipmentProjectId);
    var m1 := ReferIf(maps, kp, k, Plate);
    var m2 := ReferIf(m1, kq, k, Specimen);
    var m3 := ReferIf(m2, ku, k, Shipment);
    assert m3 == ReferAll(maps, k, s);
    ReferIfAt(maps, kp, k, Plate, key);
    ReferIfAt(m1, kq, k, Specimen, key);
    ReferIfAt(m2, ku, k, Shipment, key);
    var inner := Inner(maps, key);
    var withPlate: map<nat, Role> := inner[k := Plate];
    var withSpecimen: map<nat, Role> := inner[k := Specimen];
    var withShipment: map<nat, Role> := inner[k := Shipment];
    assert withPlate[k := Specimen] == withSpecimen;
    assert withPlate[k := Shipment] == withShipment;
    assert withSpecimen[k := Shipment] == withShipment;
    assert key in m3 ==> m3[key] == Inner(m3, key);
  }

  /** Processing one more index extends the reverse map exactly as the declarative definition says. */
  lemma ReferAllExtends(ss: seq<IndexSettings>, s: IndexSettings)
    ensures ReferAll(ProjectMaps(ss), |ss|, s) == ProjectMaps(ss + [s])
  {
    var ss' := ss + [s];
    var maps := ProjectMaps(ss);
    var got := ReferAll(maps, |ss|, s);
    var want := ProjectMaps(ss');
    assert ss'[..|ss'| - 1] == ss;
    assert ReferencedKeys(ss') == ReferencedKeys(ss) + Keys(s);
    forall key
      ensures key in got <==> key in want
      ensures key in want ==> got[key] == want[key]
    {
      ReferAllAt(maps, |ss|, s, key);
      ReferencesExtend(ss, s, key);
      if key in want && key !in maps {
        assert References(ss, key) == map[] by {
          forall j: nat | j < |ss| ensures RoleOf(ss[j], key).None? {
            assert key !in Keys(ss[j]);
          }
        }
      }
    }
  }

  lemma ReferAllExtendsPrefix(settings: seq<IndexSettings>, k: nat)
    requires k < |settings|
    ensures ReferAll(ProjectMaps(settings[..k]), k, settings[k]) == ProjectMaps(settings[..k + 1])
  {
    assert settings[..k + 1] == settings[..k] + [settings[k]];
    ReferAllExtends(settings[..k], settings[k]);
  }

  // ---------------------------------------------------------------- the cross-configuration check

  /** The "too many configurations" error for one role, with the guard on a non-empty id. */
  function RoleCross(c: Configuration, maps: map<string, map<nat, Role>>, r: Role): seq<ConfigError> {
    IdCross(c.ProjectId(r), maps)
  }

  function IdCross(id: PhpVal, maps: map<string, map<nat, Role>>): seq<ConfigError> {
    if !Empty(id) && ArrayKey(id) in maps && |maps[ArrayKey(id)]| > 1 then [TooManyConfigurations(ToStr(id))]
    else []
  }

  function CrossErrors(c: Configuration, maps: map<string, map<nat, Role>>): seq<ConfigError> {
    RoleCross(c, maps, Plate) + RoleCross(c, maps, Specimen) + RoleCross(c, maps, Shipment)
  }

  /** The first pass over the indexes `ss`: each built on its own. */
  function BuildAll(ss: seq<IndexSettings>, enabled: set<string>): (cs: seq<Configuration>)
    ensures |cs| == |ss|
  {
    if |ss| == 0 then [] else BuildAll(ss[..|ss| - 1], enabled) + [BuildConfig(ss[|ss| - 1], enabled)]
  }

  lemma BuildAllStep(settings: seq<IndexSettings>, enabled: set<string>, k: nat)
    requires k < |settings|
    ensures BuildAll(settings[..k + 1], enabled) == BuildAll(settings[..k], enabled) + [BuildConfig(settings[k], enabled)]
  {
    assert settings[..k + 1][..k] == settings[..k];
  }

  lemma {:induction false} BuildAllAt(ss: seq<IndexSettings>, enabled: set<string>)
    ensures forall j :: 0 <= j < |ss| ==> BuildAll(ss, enabled)[j] == BuildConfig(ss[j], enabled)
  {
    if |ss| > 0 {
      var p := ss[..|ss| - 1];
      BuildAllAt(p, enabled);
      assert forall j :: 0 <= j < |p| ==> ss[j] == p[j];
    }
  }

  /** The configuration at index `k` once every index has been built and cross-checked. */
  function FinalConfig(settings: seq<IndexSettings>, enabled: set<string>, k: nat): Configuration
    requires k < |settings|
  {
    var c := BuildConfig(settings[k], enabled);
    c.(errors := c.errors + CrossErrors(c, ProjectMaps(settings)))
  }

  function Configurations(settings: seq<IndexSettings>, enabled: set<string>): (cs: seq<Configuration>)
    ensures |cs| == |settings|
  {
    seq(|settings|, k requires 0 <= k < |settings| => FinalConfig(settings, enabled, k))
  }

  predicate SharedWithOtherIndex(settings: seq<IndexSettings>, k: nat, key: string) {
    exists j :: 0 <= j < |settings| && j != k && key in Keys(settings[j])
  }

  /**
   * A project id of index `k` draws the "too many configurations" error exactly when another
   * index also references it; an id repeated within index `k` alone does not.
   */
  lemma TooManyIffShared(settings: seq<IndexSettings>, enabled: set<string>, k: nat, r: Role)
    requires k < |settings|
    ensures var id := settings[k].ProjectId(r);
      RoleCross(BuildConfig(settings[k], enabled), ProjectMaps(settings), r) != []
      <==> !Empty(id) && SharedWithOtherIndex(settings, k, ArrayKey(id))
  {
    BuildKeepsIds(settings[k], enabled, r);
    IdCrossIffShared(settings, k, r);
  }

  lemma BuildKeepsIds(s: IndexSettings, enabled: set<string>, r: Role)
    ensures BuildConfig(s, enabled).ProjectId(r) == s.ProjectId(r)
  {
  }

  lemma IdCrossIffShared(settings: seq<IndexSettings>, k: nat, r: Role)
    requires k < |settings|
    ensures var id := settings[k].ProjectId(r);
      IdCross(id, ProjectMaps(settings)) != [] <==> !Empty(id) && SharedWithOtherIndex(settings, k, ArrayKey(id))
  {
    var id := settings[k].ProjectId(r);
    if !Empty(id) {
      var key := ArrayKey(id);
      var maps := ProjectMaps(settings);
      assert key in Keys(settings[k]);
      assert key in ReferencedKeys(settings);
      RecordedIndexes(settings, key);
      OtherKeyIffSeveral(maps[key], k);
    }
  }

  /** A map holding `k` has more than one entry exactly when it holds another key. */
  lemma OtherKeyIffSeveral(m: map<nat, Role>, k: nat)
    requires k in m
    ensures |m| > 1 <==> exists j :: j in m && j != k
  {
    if exists j :: j in m && j != k {
      var j :| j in m && j != k;
      assert {j, k} <= m.Keys;
      assert |{j, k}| == 2;
      SubsetCardinality({j, k}, m.Keys);
    } else {
      assert m.Keys == {k};
    }
  }

  lemma SubsetCardinality<T>(a: set<T>, b: set<T>)
    requires a <= b
    ensures |a| <= |b|
  {
    assert b == a + (b - a);
  }

  /** The cross check as written: `count()` on the missing map entry of a non-null empty id is a TypeError. */
  function RoleCrossAsWritten(c: Configuration, maps: map<string, map<nat, Role>>, r: Role): Result<seq<ConfigError>> {
    var id := c.ProjectId(r);
    if id == Null then Ok([])
    else if ArrayKey(id) !in maps then Err(["count(): Argument #1 ($value) must be of type Countable|array, null given"])
    else if |maps[ArrayKey(id)]| > 1 then Ok([TooManyConfigurations(ToStr(id))])
    else Ok([])
  }

  /** An index whose Box project id was cleared to the empty string. */
  const ClearedBoxIndex := IndexSettings(Str("Study"), Str(""), Str("2"), Str("3"), Int(9), Null, Null, Null,
                                         Null, Null, Str("^B"), Str("^S"), Null)

  /** The cleared id is recorded for no project. */
  lemma ClearedBoxUnmapped()
    ensures "" !in ProjectMaps([ClearedBoxIndex])
  {
    var s := ClearedBoxIndex;
    assert KeyOf(s.plateProjectId) == None;
    assert Keys(s) == {"2", "3"};
    RecordedIndexes([s], "");
    assert "" !in ReferencedKeys([s]);
  }

  /** Where the written guard and the corrected one part: a cleared (empty-string) Box project id. */
  lemma CrossCheckEmptyIdThrows()
    ensures var c := BuildConfig(ClearedBoxIndex, {"2", "3"});
      var maps := ProjectMaps([ClearedBoxIndex]);
      RoleCrossAsWritten(c, maps, Plate).Err?
      && RoleCross(c, maps, Plate) == []
  {
    BuildKeepsIds(ClearedBoxIndex, {"2", "3"}, Plate);
    ClearedBoxUnmapped();
    EmptyIdThrows(BuildConfig(ClearedBoxIndex, {"2", "3"}), ProjectMaps([ClearedBoxIndex]), Plate);
  }

  /** An empty-string id that no index records makes the written check throw and the corrected one pass. */
  lemma EmptyIdThrows(c: Configuration, maps: map<string, map<nat, Role>>, r: Role)
    requires c.ProjectId(r) == Str("") && "" !in maps
    ensures RoleCrossAsWritten(c, maps, r).Err? && RoleCross(c, maps, r) == []
  {
  }

  /** The cleared id is already reported by the index's own validation, as a missing Box project. */
  lemma ClearedBoxReported()
    ensures ProjectMissing(Plate) in BuildConfig(ClearedBoxIndex, {"2", "3"}).errors
  {
    RoleErrorIn(ClearedBoxIndex, {"2", "3"}, ProjectMissing(Plate));
    assert ProjectMissing(Plate) in RoleErrors(ClearedBoxIndex, Plate, {"2", "3"});
  }

  /** With every project id either null or non-empty, the written cross check agrees with the corrected one. */
  lemma CrossCheckAgreesWhenIdsSet(settings: seq<IndexSettings>, enabled: set<string>, k: nat, r: Role)
    requires k < |settings|
    requires settings[k].ProjectId(r) == Null || !Empty(settings[k].ProjectId(r))
    ensures var c := BuildConfig(settings[k], enabled);
      RoleCrossAsWritten(c, ProjectMaps(settings), r) == Ok(RoleCross(c, ProjectMaps(settings), r))
  {
    BuildKeepsIds(settings[k], enabled, r);
    var id := settings[k].ProjectId(r);
    if id != Null {
      assert ArrayKey(id) in Keys(settings[k]);
      assert ArrayKey(id) in ReferencedKeys(settings);
    }
  }

  // ---------------------------------------------------------------- resolution of a project id

  const NoConfigurations := "No configurations exist."
  const ContextAlreadySet := "Configuration context was already set and cannot be changed."
  const InvalidContextConfig := "Cannot set configuration context using an invalid configuration."

  datatype Resolution = Resolved(config: Configuration) | Unresolved(errors: seq<string>)

  function NotReferencedMessage(projectId: int): string {
    "This Project [id=" + IntToString(projectId) + "] is not referenced in any configurations for use in this module."
  }

  function MoreThanOneMessage(projectId: int): string {
    "This Project [id=" + IntToString(projectId) + "] is referenced in more than one configuration."
  }

  /** What `getConfiguration` returns once the configurations are built. */
  function Resolve(configs: seq<Configuration>, maps: map<string, map<nat, Role>>, projectId: int): Resolution {
    var key := IntToString(projectId);
    var refs := Inner(maps, key);
    if |refs| == 0 then Unresolved([NotReferencedMessage(projectId)])
    else if |refs| > 1 then Unresolved([MoreThanOneMessage(projectId)])
    else
      var k := MinOf(refs.Keys);
      if k < |configs| then Resolved(configs[k]) else Unresolved([])
  }

  /** The indexes the reverse map records for `key` are exactly those that reference it. */
  lemma RecordedIndexes(settings: seq<IndexSettings>, key: string)
    ensures forall j: nat :: j in Inner(ProjectMaps(settings), key) <==> j < |settings| && key in Keys(settings[j])
  {
  }

  /** Every non-empty project id of the configuration has an entry in the reverse map. */
  predicate IdsRecorded(c: Configuration, maps: map<string, map<nat, Role>>) {
    (!Empty(c.plateProjectId) ==> ArrayKey(c.plateProjectId) in maps)
    && (!Empty(c.specimenProjectId) ==> ArrayKey(c.specimenProjectId) in maps)
    && (!Empty(c.shipmentProjectId) ==> ArrayKey(c.shipmentProjectId) in maps)
  }

  /** The ids of every index are recorded in the finished reverse map. */
  lemma RecordedKeysOf(settings: seq<IndexSettings>, enabled: set<string>, k: nat)
    requires k < |settings|
    ensures IdsRecorded(BuildConfig(settings[k], enabled), ProjectMaps(settings))
  {
    var s := settings[k];
    assert KeySet(KeyOf(s.plateProjectId)) <= Keys(s);
    assert KeySet(KeyOf(s.specimenProjectId)) <= Keys(s);
    assert KeySet(KeyOf(s.shipmentProjectId)) <= Keys(s);
  }

  /** A project id no index references resolves to the "not referenced" error. */
  lemma ResolveUnreferenced(settings: seq<IndexSettings>, enabled: set<string>, projectId: int)
    requires forall j :: 0 <= j < |settings| ==> IntToString(projectId) !in Keys(settings[j])
    ensures Resolve(Configurations(settings, enabled), ProjectMaps(settings), projectId)
      == Unresolved([NotReferencedMessage(projectId)])
  {
    var refs := Inner(ProjectMaps(settings), IntToString(projectId));
    RecordedIndexes(settings, IntToString(projectId));
    assert refs == map[];
  }

  /** A project id two indexes reference resolves to the "more than one configuration" error. */
  lemma ResolveShared(settings: seq<IndexSettings>, enabled: set<string>, projectId: int, i: nat, j: nat)
    requires i < j < |settings|
    requires IntToString(projectId) in Keys(settings[i]) && IntToString(projectId) in Keys(settings[j])
    ensures Resolve(Configurations(settings, enabled), ProjectMaps(settings), projectId)
      == Unresolved([MoreThanOneMessage(projectId)])
  {
    var refs := Inner(ProjectMaps(settings), IntToString(projectId));
    RecordedIndexes(settings, IntToString(projectId));
    OtherKeyIffSeveral(refs, i);
  }

  /** A project id that index `k` alone references resolves to that index's configuration, its errors included. */
  lemma ResolveSingle(settings: seq<IndexSettings>, enabled: set<string>, projectId: int, k: nat)
    requires k < |settings| && IntToString(projectId) in Keys(settings[k])
    requires !SharedWithOtherIndex(settings, k, IntToString(projectId))
    ensures Resolve(Configurations(settings, enabled), ProjectMaps(settings), projectId)
      == Resolved(FinalConfig(settings, enabled, k))
  {
    var refs := Inner(ProjectMaps(settings), IntToString(projectId));
    RecordedIndexes(settings, IntToString(projectId));
    OtherKeyIffSeveral(refs, k);
    assert refs.Keys == {k};
    assert MinOf(refs.Keys) == k;
  }

  // ---------------------------------------------------------------- the module object

  /** The configuration and context fields of the module object for one request. */
  class ModuleContext {
    /** The system settings and the projects the module is enabled on, as the host reports them. */
    const settings: seq<IndexSettings>
    const enabledProjects: seq<PhpVal>

    var configurations: Option<seq<Configuration>>
    var projectMaps: map<string, map<nat, Role>>
    var currentConfiguration: Option<Configuration>
    var plateProject: Option<PhpVal>
    var specimenProject: Option<PhpVal>
    var shipmentProject: Option<PhpVal>

    ghost predicate Valid()
      reads this
    {
      (configurations.None? ==> projectMaps == map[])
      && (configurations.Some? ==>
            |settings| > 0
            && configurations.value == Configurations(settings, EnabledKeys(enabledProjects))
            && projectMaps == ProjectMaps(settings))
      && (currentConfiguration.None? ==> plateProject.None? && specimenProject.None? && shipmentProject.None?)
      && (currentConfiguration.Some? ==>
            plateProject == Some(currentConfiguration.value.plateProjectId)
            && specimenProject == Some(currentConfiguration.value.specimenProjectId)
            && shipmentProject == Some(currentConfiguration.value.shipmentProjectId))
    }

    constructor(settings: seq<IndexSettings>, enabledProjects: seq<PhpVal>)
      ensures Valid()
      ensures this.settings == settings && this.enabledProjects == enabledProjects
      ensures configurations.None? && currentConfiguration.None?
    {
      this.settings := settings;
      this.enabledProjects := enabledProjects;
      configurations := None;
      projectMaps := map[];
      currentConfiguration := None;
      plateProject := None;
      specimenProject := None;
      shipmentProject := None;
    }

    /** Builds every configuration once; a later call returns at once. */
    method InitConfigurations() returns (r: Outcome)
      requires Valid()
      modifies this
      ensures Valid()
      ensures old(configurations).Some? ==> r == Pass && unchanged(this)
      ensures old(configurations).None? && |settings| == 0 ==>
        r == Fail([NoConfigurations]) && configurations.None?
      ensures old(configurations).None? && |settings| > 0 ==>
        r == Pass && configurations == Some(Configurations(settings, EnabledKeys(enabledProjects)))
      ensures currentConfiguration == old(currentConfiguration)
      ensures plateProject == old(plateProject) && specimenProject == old(specimenProject)
      ensures shipmentProject == old(shipmentProject)
    {
      if configurations.Some? {
        return Pass;
      }
      var configs := BuildConfigurations();
      configs := CrossCheckAll(configs);
      if |configs| == 0 {
        return Fail([NoConfigurations]);
      }
      configurations := Some(configs);
      return Pass;
    }

    /** The first pass: one configuration per index, recording each non-empty project id in the reverse map. */
    method BuildConfigurations() returns (configs: seq<Configuration>)
      requires projectMaps == map[]
      modifies this`projectMaps
      ensures configs == BuildAll(settings, EnabledKeys(enabledProjects))
      ensures projectMaps == ProjectMaps(settings)
    {
      var enabled := EnabledKeys(enabledProjects);
      configs := [];
      var k := 0;
      while k < |settings|
        invariant 0 <= k <= |settings|
        invariant configs == BuildAll(settings[..k], enabled)
        invariant projectMaps == ProjectMaps(settings[..k])
      {
        var config := BuildConfig(settings[k], enabled);
        RecordReferences(k, config);
        ReferAllExtendsPrefix(settings, k);
        BuildAllStep(settings, enabled, k);
        configs := configs + [config];
        k := k + 1;
      }
      assert settings[..k] == settings;
    }

    /** The second pass: the "too many configurations" errors, against the finished reverse map. */
    method CrossCheckAll(built: seq<Configuration>) returns (configs: seq<Configuration>)
      requires built == BuildAll(settings, EnabledKeys(enabledProjects)) && projectMaps == ProjectMaps(settings)
      ensures configs == Configurations(settings, EnabledKeys(enabledProjects))
    {
      var enabled := EnabledKeys(enabledProjects);
      BuildAllAt(settings, enabled);
      configs := built;
      var i := 0;
      while i < |configs|
        invariant 0 <= i <= |configs| == |settings|
        invariant forall j :: 0 <= j < i ==> configs[j] == FinalConfig(settings, enabled, j)
        invariant forall j :: i <= j < |configs| ==> configs[j] == BuildConfig(settings[j], enabled)
      {
        RecordedKeysOf(settings, enabled, i);
        var c := CrossChecked(configs[i]);
        configs := configs[i := c];
        i := i + 1;
      }
    }

    /** The three reverse-map updates for index `k`: `$this->_project_maps[$id][$k] = $role` for each non-empty id. */
    method RecordReferences(k: nat, config: Configuration)
      requires k < |settings|
      requires config.plateProjectId == settings[k].plateProjectId
      requires config.specimenProjectId == settings[k].specimenProjectId
      requires config.shipmentProjectId == settings[k].shipmentProjectId
      modifies this`projectMaps
      ensures projectMaps == ReferAll(old(projectMaps), k, settings[k])
    {
      if !Empty(config.plateProjectId) {
        projectMaps := Refer(projectMaps, ArrayKey(config.plateProjectId), k, Plate);
      }
      if !Empty(config.specimenProjectId) {
        projectMaps := Refer(projectMaps, ArrayKey(config.specimenProjectId), k, Specimen);
      }
      if !Empty(config.shipmentProjectId) {
        projectMaps := Refer(projectMaps, ArrayKey(config.shipmentProjectId), k, Shipment);
      }
    }

    /** The cross-configuration check of one configuration against the finished reverse map. */
    method CrossChecked(c: Configuration) returns (checked: Configuration)
      requires IdsRecorded(c, projectMaps)
      ensures checked == c.(errors := c.errors + CrossErrors(c, projectMaps))
    {
      var errors := CheckId(c.errors, c.plateProjectId);
      errors := CheckId(errors, c.specimenProjectId);
      errors := CheckId(errors, c.shipmentProjectId);
      AppendAssoc(c.errors, IdCross(c.plateProjectId, projectMaps), IdCross(c.specimenProjectId, projectMaps),
        IdCross(c.shipmentProjectId, projectMaps));
      checked := c.(errors := errors);
    }

    /** One of the three checks: a recorded id referenced by more than one index adds the error. */
    method CheckId(errors: seq<ConfigError>, id: PhpVal) returns (errors': seq<ConfigError>)
      requires !Empty(id) ==> ArrayKey(id) in projectMaps
      ensures errors' == errors + IdCross(id, projectMaps)
    {
      errors' := errors;
      if !Empty(id) && |projectMaps[ArrayKey(id)]| > 1 {
        errors' := errors' + [TooManyConfigurations(ToStr(id))];
      }
    }

    /** `getAllConfigurations`: the built configurations, building them first if needed. */
    method GetAllConfigurations() returns (r: Result<seq<Configuration>>)
      requires Valid()
      modifies this
      ensures Valid()
      ensures |settings| == 0 <==> r.Err?
      ensures r.Ok? ==> r.value == Configurations(settings, EnabledKeys(enabledProjects))
      ensures currentConfiguration == old(currentConfiguration)
    {
      var init := InitConfigurations();
      if init.Fail? {
        return Err(init.messages);
      }
      return Ok(configurations.value);
    }

    /** `getConfiguration`: resolve a project id to the one configuration that references it. */
    method GetConfiguration(projectId: int) returns (r: Result<Resolution>)
      requires Valid()
      modifies this
      ensures Valid()
      ensures |settings| == 0 <==> r.Err?
      ensures r.Ok? ==> r.value == Resolve(Configurations(settings, EnabledKeys(enabledProjects)), ProjectMaps(settings), projectId)
      ensures currentConfiguration == old(currentConfiguration)
    {
      var init := InitConfigurations();
      if init.Fail? {
        return Err(init.messages);
      }
      return Ok(Resolve(configurations.value, projectMaps, projectId));
    }

    /** `setConfigProjectContext`: the context is set once, and only from a valid configuration. */
    method SetConfigProjectContext(config: Resolution) returns (r: Outcome)
      requires Valid()
      modifies this
      ensures Valid()
      ensures configurations == old(configurations) && projectMaps == old(projectMaps)
      ensures old(currentConfiguration).Some? ==>
        r == Fail([ContextAlreadySet]) && unchanged(this)
      ensures old(currentConfiguration).None? && !UsableForContext(config) ==>
        r == Fail([InvalidContextConfig]) && unchanged(this)
      ensures old(currentConfiguration).None? && UsableForContext(config) ==>
        r == Pass && currentConfiguration == Some(config.config)
    {
      if currentConfiguration.Some? {
        return Fail([ContextAlreadySet]);
      }
      if !UsableForContext(config) {
        return Fail([InvalidContextConfig]);
      }
      currentConfiguration := Some(config.config);
      plateProject := Some(config.config.plateProjectId);
      specimenProject := Some(config.config.specimenProjectId);
      shipmentProject := Some(config.config.shipmentProjectId);
      return Pass;
    }

    function PlateProject(): Result<PhpVal>
      reads this
    {
      if plateProject.None? then Err(["Plate project context has not yet been established"]) else Ok(plateProject.value)
    }

    function SpecimenProject(): Result<PhpVal>
      reads this
    {
      if specimenProject.None? then Err(["Specimen project context has not yet been established"]) else Ok(specimenProject.value)
    }

    function ShipmentProject(): Result<PhpVal>
      reads this
    {
      if shipmentProject.None? then Err(["Shipment project context has not yet been established"]) else Ok(shipmentProject.value)
    }
  }

  /** A configuration the context may be set from: no errors and all three projects enabled. */
  predicate UsableForContext(config: Resolution) {
    config.Resolved?
    && |config.config.errors| == 0
    && config.config.plateProjectEnabled
    && config.config.specimenProjectEnabled
    && config.config.shipmentProjectEnabled
  }

  /** The project getters fail until the context is set, and then give the configuration's project ids. */
  lemma ProjectGettersGuarded(m: ModuleContext)
    requires m.Valid()
    ensures m.currentConfiguration.None? ==>
      m.PlateProject().Err? && m.SpecimenProject().Err? && m.ShipmentProject().Err?
    ensures m.currentConfiguration.Some? ==>
      var c := m.currentConfiguration.value;
      m.PlateProject() == Ok(c.plateProjectId)
      && m.SpecimenProject() == Ok(c.specimenProjectId)
      && m.ShipmentProject() == Ok(c.shipmentProjectId)
  {
  }

  /** Any configuration that carries an error, the resolver's own rejections included, cannot become the context. */
  lemma ErroneousConfigurationUnusable(config: Resolution)
    requires config.Unresolved? || |config.config.errors| > 0
    ensures !UsableForContext(config)
  {
  }
}
