# ORCA Specimen Tracking — a Dafny model

ORCA Specimen Tracking is a REDCap external module. A laboratory uses it to track specimen boxes
(called plates in the code), the specimens placed in them and the shipments that carry the boxes.
The module ties three REDCap projects together into one tracking configuration: a Box project, a
Specimen project and a Shipment project. Everything it stores lives in those projects' records; the
module adds the logic around them. This project models that logic and proves properties of it:

- **Configuration resolution** (`ModuleUtils`). System settings are read into configurations of
  three projects. Each configuration is checked: a project used twice, a project missing or not
  enabled, a required setting left blank, a project referenced by several configurations. A project
  id then resolves to its active configuration, which can be set once per request.
- **Field configuration** (`ConfigUtils`). Each project's data dictionary becomes per-field,
  per-screen settings. Saved settings are merged with computed defaults, and fields the project type
  marks as required are forced on.
- **Identifiers** (`NamePatterns`). Box and specimen names are parsed with the configured
  named-group regular expressions. Token patterns are derived from those expressions.
- **Specimens** (`SpecimenUtils`). Specimens are fetched, grouped by box, searched, saved and
  deleted. A search first builds its match condition from the parsed name. Then it classifies the
  hits as an exact or a partial match, and it returns the chosen specimen with its box.
- **Boxes** (`PlateUtils`). Boxes are fetched and listed, by search or with closed boxes excluded.
- **Shipments** (`ShipmentUtils`). Shipments are listed, and a box is linked to a shipment. A
  shipment is completed: its status is set and its boxes are closed, and the status is reverted when
  closing the boxes fails. The manifest is built in box and position order.
- **Report** (`ReportUtils`). The specimen report joins each specimen with its box and shipment.
- **Shared helpers.** `RedcapUtils` holds the data-dictionary helpers: field types, choice lists
  and sort keys. `ClientUtils` models the browser-side helpers of `src/ModuleUtils.js`: value
  coercion, date display, validation messages, box positions and regular-expression groups.

Two supporting modules describe the environment. `Php` gives the PHP value semantics the code
relies on: `empty`, `is_numeric`, `ctype_digit`, `explode`/`implode`, `trim`, `str_pad`,
`array_unique`, and ordered string-keyed arrays with `+`, `array_merge`,
`array_intersect_key` and `array_slice`. `RecordStore` models REDCap's record store as an
entity-attribute-value table, with `getData`, overwrite-mode `saveData`, `deleteRecord` and
`reserveNewRecordId`. The class `RecordStore.Store` holds the tables that those operations update in
place.

Modelling choices:

- Record names are strings. Auto-numbered records carry canonical decimal names.
- The host's regular-expression engines are parameters of the functions that use them: PHP's
  `preg_match`, MySQL's `REGEXP` and JavaScript's `RegExp`. So are date parsing and formatting
  (`strtotime`, `date`) and luxon's duration formatting.
- A handler that ends the request with an error returns an `Abort` result.
- The PHP validation errors carry the module's exact message texts. The browser-side failures (a failed `exec` in `ClientUtils.ToNumericBoxPosition`, luxon's "Invalid unit value NaN" in `ClientUtils.MinutesToHuman`) come from the JavaScript engine or luxon and are modelled as failures, not as message texts.

## Model

| member | source | states |
|---|---|---|
| Php.IndexOfChar | traits/SpecimenUtils.php:76 | the position found is the first occurrence of the character; none means it does not occur |
| Php.FindFrom | traits/REDCapUtils.php:167 | the position found is the first occurrence of the separator at or after the start; none means there is none |
| Php.Explode | traits/REDCapUtils.php:167 | splitting always yields at least one piece |
| Php.ImplodeExplode | traits/REDCapUtils.php:167-169 | joining the pieces of a split with its separator gives the text back |
| Php.Trim | traits/REDCapUtils.php:167 | the trimmed text neither starts nor ends with a character trim strips |
| Php.PadLeft | traits/REDCapUtils.php:243 | left padding gives the larger of the two lengths, ends with the text and is padded with the pad character |
| Php.Unique | traits/ModuleUtils.php:85 | de-duplicating keeps each value once and loses none |
| Php.UniqueKeepsAllIffDistinct | traits/ModuleUtils.php:84-86 | de-duplicating keeps every element exactly when no value repeats |
| Php.NatToString | traits/ModuleUtils.php:156 | the decimal text of a number is all digits |
| Php.DecimalRoundTrip | traits/SpecimenUtils.php:232 | decimal record names and the numbers they denote correspond one to one |
| Php.CanonicalIsNumeric | traits/SpecimenUtils.php:93 | every canonical decimal record name passes is_numeric |
| Php.PositiveNotEmpty | traits/SpecimenUtils.php:230-234 | the decimal text of a positive number is not empty in PHP's sense |
| Php.Get | traits/SpecimenUtils.php:189 | an array lookup finds a value exactly when the key is present, and it is that key's value |
| Php.Put | traits/SpecimenUtils.php:184 | assigning a key overwrites in place when it exists, appends otherwise, reads back the value and keeps every other entry |
| Php.GetAfterPut | traits/SpecimenUtils.php:184 | assigning a key keeps the other keys' values |
| Php.PutKeepsDistinct | traits/SpecimenUtils.php:184 | assigning a key keeps the keys distinct |
| Php.Union | traits/REDCapUtils.php:176 | the union keeps the left array as its prefix |
| Php.MergeDisjoint | traits/REDCapUtils.php:213 | merging arrays with distinct, non-overlapping string keys concatenates them |
| Php.MergeKeys | traits/ReportUtils.php:104 | the keys of a merge are the left array's keys followed by the right array's keys not already present, in their first order |
| Php.NewKeysAllFresh | traits/ReportUtils.php:104 | distinct keys none of which is already present are all new, in their order |
| Php.IntersectKeys | traits/SpecimenUtils.php:239-241 | intersecting keeps exactly the entries whose key is listed, in order |
| Php.IntersectGet | traits/SpecimenUtils.php:239-241 | intersecting keeps keys distinct; a listed key reads as before, an unlisted one as missing |
| Php.SliceBounds | traits/REDCapUtils.php:207-211 | the kept positions lie within the array |
| Php.SliceNonNegative | traits/REDCapUtils.php:207-211 | with an offset inside the array and a non-negative length a slice is a plain subsequence |
| RecordStore.Listed | traits/ShipmentUtils.php:71-73 | a project's records are listed each once |
| RecordStore.RowOf | traits/SpecimenUtils.php:98-102 | a record's row has exactly the requested fields, in order, with their stored values |
| RecordStore.Selected | traits/PlateUtils.php:34-37 | an empty record list reads every record; otherwise exactly the named records that exist, each once |
| RecordStore.GetData | traits/PlateUtils.php:34-41 | the result holds the selected records, each once, with its requested fields |
| RecordStore.GetDataGet | traits/PlateUtils.php:34-41 | a result holds a record exactly when it is selected, and then with its requested fields |
| RecordStore.Where | traits/SpecimenUtils.php:19-22 | a filter selects exactly the existing records whose field holds the value, each once |
| RecordStore.SortByKey | traits/ShipmentUtils.php:157 | sorting orders the rows by the column under its collation, and keeps every row |
| RecordStore.BinaryEquality | traits/SpecimenUtils.php:131 | under a binary collation, SQL equality is equality of the texts |
| RecordStore.CaseVariantsEqual | traits/SpecimenUtils.php:131 | under a case-insensitive collation, "abc-01" and "ABC-01" are equal although the texts differ |
| RecordStore.WriteOne | traits/SpecimenUtils.php:243-248 | a one-record write changes only that record's written fields, and they read back as written |
| RecordStore.WriteField | traits/ShipmentUtils.php:307-316 | writing one field with one value into several records sets it there and changes nothing else |
| RecordStore.WriteListing | traits/ShipmentUtils.php:416-422 | writing into one project leaves every other project's listing as it was |
| RecordStore.NextRecordIdIsNew | traits/SpecimenUtils.php:232-234 | a reserved record name is new, canonical and not empty |
| RecordStore.Store.constructor | traits/SpecimenUtils.php:243-248 | the store starts from the given tables |
| RecordStore.Store.SaveData | traits/SpecimenUtils.php:243-251 | the host's errors are returned; without errors the data is written in overwrite mode, otherwise nothing changes |
| RecordStore.Store.DeleteRecord | traits/SpecimenUtils.php:272-274 | a delete succeeds exactly when the record exists, and then removes it; otherwise nothing changes |
| RecordStore.DeleteRemoves | traits/SpecimenUtils.php:272 | after a delete the record is no longer listed and none of its cells remain |
| NamePatterns.Delimited | traits/SpecimenUtils.php:76 | a pattern without '/' is wrapped in '/' delimiters; one with '/' is used as is |
| NamePatterns.NamedOnly | traits/SpecimenUtils.php:78-80 | exactly the matches under non-numeric keys are kept, in order |
| NamePatterns.ParseKeepsNamedGroups | traits/SpecimenUtils.php:74-83 | a name that does not match parses to nothing; otherwise the result holds exactly the named groups of the match |
| NamePatterns.ParsePlateName | traits/PlateUtils.php:46-58 | a box name parses to null exactly when it or the pattern is empty; otherwise only named groups are kept |
| NamePatterns.RenderAppend | traits/SpecimenUtils.php:157 | rendering tokens distributes over concatenation |
| NamePatterns.NameEnd | traits/SpecimenUtils.php:154 | the position found is a '>' preceded only by word characters from the start of the name |
| NamePatterns.CloseFrom | traits/SpecimenUtils.php:149 | the position found is the first ')' at or after the start; none means there is no ')' there |
| NamePatterns.GroupAt | traits/SpecimenUtils.php:149 | the group found starts at or after the given position and is a well-formed named group whose body has no ')' |
| NamePatterns.GroupSplit | traits/SpecimenUtils.php:149 | a group found in a pattern is its token's text between the text before and after it |
| NamePatterns.TokenizeRenders | traits/SpecimenUtils.php:149-157 | splitting a pattern into literal text and named groups loses nothing: the tokens render back to the pattern |
| NamePatterns.RenderOne | traits/SpecimenUtils.php:157 | one token renders as its own text |
| NamePatterns.BackRef | traits/SpecimenUtils.php:157 | a back-reference read from a replacement text starts with `\` or `$` and takes at least two of its characters |
| NamePatterns.ExpandPlain | traits/SpecimenUtils.php:157 | a replacement text without `\` or `$` is inserted as it is |
| NamePatterns.GroupMatch | traits/SpecimenUtils.php:149 | a match of a group's replacement pattern begins with "(?<g>" and ends at a ')' inside the text |
| NamePatterns.StripNameSyntax | traits/SpecimenUtils.php:154 | removing `?<name>` never lengthens the text |
| NamePatterns.BuildRewrites | traits/SpecimenUtils.php:139-155 | the loop collects one replacement per chosen group that the parsed value sets, in order, and the name-stripping pass last |
| NamePatterns.DerivePattern | traits/SpecimenUtils.php:139-157 | when the search value sets none of the chosen groups, the derived pattern is the stored pattern with its group names stripped |
| NamePatterns.NothingSetNoRewrites | traits/SpecimenUtils.php:143-151 | no group replacement is made when the parsed value sets none of the chosen groups |
| NamePatterns.ApplyAllTextAppend | traits/SpecimenUtils.php:157 | applying two lists of patterns is applying one list and then the other, each pattern to the whole text the one before left |
| NamePatterns.NestedGroupReplaced | traits/SpecimenUtils.php:143-157 | a chosen group nested in another group is replaced inside it, and the enclosing group then only loses its name |
| NamePatterns.NestedExample | traits/SpecimenUtils.php:143-157 | with group b chosen and parsed as "V", "(?<a>x(?<b>y)z)" derives "(xVz)" |
| NamePatterns.WholeMatchBackRef | traits/SpecimenUtils.php:157 | a "$0" in the parsed value puts back the group text it replaces |
| NamePatterns.ReplaceAtGroup | traits/SpecimenUtils.php:149-157 | a group's replacement turns its own group into the value and copies any other group |
| NamePatterns.ReplaceTokens | traits/SpecimenUtils.php:149-157 | one group replacement over a flat pattern replaces exactly the tokens of that group |
| NamePatterns.GroupPasses | traits/SpecimenUtils.php:143-157 | the group passes, in order, replace exactly the chosen groups that the parsed value sets |
| NamePatterns.StripGroup | traits/SpecimenUtils.php:152-157 | the name-stripping pass leaves a named group as a plain group around its body |
| NamePatterns.StripTokens | traits/SpecimenUtils.php:152-157 | stripping names after the group passes gives the derived tokens |
| NamePatterns.DerivationPointwise | traits/SpecimenUtils.php:139-157 | for a pattern of literal text and flat named groups, and parsed values that hold no '(', '?', '\\' or '$': a chosen group that the parsed value sets becomes that value, any other group becomes a plain group around its sub-pattern, literal text is kept, and no '?' is left |
| NamePatterns.DerivationOfPattern | traits/SpecimenUtils.php:139-157 | a stored pattern whose tokens are flat derives token by token, as above |
| ConfigUtils.SurfacesComplete | traits/ConfigUtils.php:68-77 | the eight surfaces of a field's default table are all listed |
| ConfigUtils.FieldMetadataConfig | traits/ConfigUtils.php:65-121 | the default table of a field has an entry for every surface |
| ConfigUtils.OtherProjectKeys | traits/ConfigUtils.php:105-118 | a box or shipment field is never required on any surface |
| ConfigUtils.SpecimenKeys | traits/ConfigUtils.php:105-113 | the "project.field" key matches a specimen case exactly when the field name does |
| ConfigUtils.BoxDefaults | traits/ConfigUtils.php:80-85 | a box field is enabled on exactly the dashboard, reporting table, shipment box list and manifest, and never required |
| ConfigUtils.ShipmentDefaults | traits/ConfigUtils.php:98-102 | a shipment field is enabled on exactly the reporting table, shipment list and manifest, and never required |
| ConfigUtils.SpecimenDefaults | traits/ConfigUtils.php:86-97 | a specimen field is on the entry form unless it is an infrastructure field, in batch mode unless it is that or specimen_name, and always on the list, reporting table and manifest |
| ConfigUtils.SpecimenSurfaces | traits/ConfigUtils.php:86-97 | the enabled surfaces of a specimen field by whether it is an infrastructure field or specimen_name |
| ConfigUtils.EnabledIff | traits/ConfigUtils.php:78-103 | a surface is enabled exactly when the project switch turns it on; the required switch never enables |
| ConfigUtils.RequiredOnly | traits/ConfigUtils.php:104-118 | the only required surfaces are specimen_name's entry form and list and box_position's list |
| ConfigUtils.RequiredImpliesEnabled | traits/ConfigUtils.php:79-118 | for the three projects a required surface is also enabled |
| ConfigUtils.UnknownProjectDisabled | traits/ConfigUtils.php:79-103 | any other project name leaves every surface disabled |
| ConfigUtils.FlagRule | traits/ConfigUtils.php:157-175 | every surface appears in a field's configuration; one enabled and required by default is true, any other keeps its saved value or false |
| ConfigUtils.UnsavedFlagsFalse | traits/ConfigUtils.php:157-175 | with nothing saved, exactly the forced surfaces are true |
| ConfigUtils.ExtrasKinds | traits/ConfigUtils.php:176-210 | which extras a field gets: matchPrefill for specimen_name, confirm for other text fields, noFuture and afterDate for datetime fields, only in the specimen project and never for infrastructure fields |
| ConfigUtils.ExtrasDefaults | traits/ConfigUtils.php:184-208 | unsaved extras default to false, [] and "" |
| ConfigUtils.ProjectNamed | traits/ConfigUtils.php:135-140 | an unknown project name fails with the "unknown project name" error |
| ConfigUtils.SameFieldNames | traits/ConfigUtils.php:211-214 | metadata and configuration are keyed by the same field names in the same order |
| ConfigUtils.ShownFieldsListed | traits/ConfigUtils.php:141-143 | a field name is configured exactly when some field of that name is neither a form status nor of an excluded type |
| ConfigUtils.ConfigKeysStep | traits/ConfigUtils.php:141-214 | one more field adds its name exactly when it is shown |
| ConfigUtils.ShownFieldConfig | traits/ConfigUtils.php:155-214 | a shown field that is the last of its name carries its own configuration |
| ConfigUtils.GetFieldConfigForProject | traits/ConfigUtils.php:126-217 | the field loop computes the configuration function of the project |
| ConfigUtils.SyncDefaults | traits/ConfigUtils.php:170-175 | the sync loop sets exactly the enabled-and-required surfaces to true |
| ConfigUtils.ModuleConfigCoversProjects | traits/ConfigUtils.php:222-260 | the configuration exists exactly when all three projects do, each built from its own saved fields, and the warning field defaults to "" |
| ConfigUtils.ModuleConfigOf | traits/ConfigUtils.php:222-260 | without a Box project its errors are returned; the configuration exists exactly when all three projects do, and each project's metadata and configuration list the same fields in the same order |
| ConfigUtils.SaveThenRead | traits/ConfigUtils.php:48-63 | after a save, reading back yields the payload's general settings and fields |
| ConfigUtils.ModuleSettings.constructor | traits/ConfigUtils.php:238-240 | the settings store starts from the given settings |
| ConfigUtils.ModuleSettings.HandleSaveModuleConfig | traits/ConfigUtils.php:48-63 | without a Box project nothing changes and its errors are returned; otherwise the whole payload replaces the Box project's "module-config" setting |
| ConfigUtils.ModuleSettings.GetModuleConfig | traits/ConfigUtils.php:222-260 | the method returns the configuration function of the current settings |
| ModuleUtils.RoleErrors | traits/ModuleUtils.php:92-107 | every error of one role is that role's "missing" or "not enabled" error |
| ModuleUtils.LeadingErrors | traits/ModuleUtils.php:83-91 | the checks before the roles never report a role error |
| ModuleUtils.TempBoxErrors | traits/ModuleUtils.php:116-126 | the temporary-box checks never report a role error |
| ModuleUtils.TrailingErrors | traits/ModuleUtils.php:108-132 | the checks after the roles never report a role error |
| ModuleUtils.NonRoleErrorIn | traits/ModuleUtils.php:83-132 | an error not about a role is reported exactly when the checks before or after the roles report it |
| ModuleUtils.ReusedIffRepeatedId | traits/ModuleUtils.php:84-88 | "used more than once" is reported exactly when two non-empty project ids of the index coincide |
| ModuleUtils.ReusedIsLeading | traits/ModuleUtils.php:84-88 | the "used more than once" error comes from the leading checks only, when filtering and de-duplicating shrink the id list |
| ModuleUtils.MissingOrNotEnabled | traits/ModuleUtils.php:92-107 | per role, an empty id gives the "missing" error, a non-empty id the module is not enabled on gives the "not enabled" error, never both |
| ModuleUtils.RoleErrorIn | traits/ModuleUtils.php:92-107 | a role error is reported exactly when its own role's checks report it |
| ModuleUtils.TempBoxOnlyWhenTrue | traits/ModuleUtils.php:78-126 | the temporary-box flag is set only by a literal true, and only then are visits and specimens copied and checked |
| ModuleUtils.TempBoxErrorsTrailing | traits/ModuleUtils.php:116-126 | "Total Visits" and "Specimens Per Visit" are missing exactly when the flag is true and the value is empty |
| ModuleUtils.MinutesMaxRule | traits/ModuleUtils.php:111-115 | an empty maximum is accepted; any other value must be numeric and greater than zero |
| ModuleUtils.MinutesMaxTrailing | traits/ModuleUtils.php:111-115 | the minutes-maximum error comes from the trailing checks, exactly when the value is rejected |
| ModuleUtils.RoleOf | traits/ModuleUtils.php:134-143 | a key has a role at an index exactly when one of its non-empty ids is that key |
| ModuleUtils.ReferencedKeys | traits/ModuleUtils.php:134-143 | the reverse map's keys are exactly the non-empty ids of some index |
| ModuleUtils.ReferencesExtend | traits/ModuleUtils.php:134-143 | one more index adds its own entry, if any, to the references of a key |
| ModuleUtils.ReferAllAt | traits/ModuleUtils.php:134-143 | the three conditional updates record index k under a key exactly when one of its ids is that key, with the last role written |
| ModuleUtils.ReferAllExtends | traits/ModuleUtils.php:134-143 | processing one more index extends the reverse map as the declarative definition says |
| ModuleUtils.BuildAll | traits/ModuleUtils.php:59-147 | the first pass builds one configuration per index |
| ModuleUtils.BuildAllAt | traits/ModuleUtils.php:59-147 | the configuration at each index is built from that index's settings alone |
| ModuleUtils.Configurations | traits/ModuleUtils.php:149-169 | the cross-checked configurations are one per index |
| ModuleUtils.TooManyIffShared | traits/ModuleUtils.php:149-169 | a project id of index k draws "too many configurations" exactly when another index references it; a repeat within index k alone does not |
| ModuleUtils.IdCrossIffShared | traits/ModuleUtils.php:154-166 | one cross check adds its error exactly when the id is shared with another index |
| ModuleUtils.OtherKeyIffSeveral | traits/ModuleUtils.php:154 | a reverse-map entry holding k counts more than one index exactly when it holds another |
| ModuleUtils.ClearedBoxUnmapped | traits/ModuleUtils.php:135-137 | an empty Box project id is recorded for no project |
| ModuleUtils.CrossCheckEmptyIdThrows | traits/ModuleUtils.php:154-158 | as written, a cleared (empty-string) Box project id makes the cross check fail with a type error, while the corrected check adds nothing |
| ModuleUtils.ClearedBoxReported | traits/ModuleUtils.php:93-94 | the cleared id is already reported by the index's own validation as a missing Box project |
| ModuleUtils.CrossCheckAgreesWhenIdsSet | traits/ModuleUtils.php:154-166 | with every id null or non-empty, the cross check as written and the corrected one agree |
| ModuleUtils.RecordedIndexes | traits/ModuleUtils.php:134-143 | the indexes recorded for a key are exactly those that reference it |
| ModuleUtils.RecordedKeysOf | traits/ModuleUtils.php:134-143 | every non-empty id of every index is recorded in the finished reverse map |
| ModuleUtils.ResolveUnreferenced | traits/ModuleUtils.php:206-210 | a project id no index references resolves to the "not referenced" error |
| ModuleUtils.ResolveShared | traits/ModuleUtils.php:211-213 | a project id two indexes reference resolves to the "more than one configuration" error |
| ModuleUtils.ResolveSingle | traits/ModuleUtils.php:214-227 | a project id one index alone references resolves to that index's cross-checked configuration, errors included |
| ModuleUtils.ModuleContext.constructor | traits/ModuleUtils.php:9-20 | the resolver starts with no configurations and no context |
| ModuleUtils.ModuleContext.InitConfigurations | traits/ModuleUtils.php:36-174 | a second call changes nothing; with no indexes it fails with "No configurations exist."; otherwise it stores the cross-checked configurations and the reverse map, leaving the context alone |
| ModuleUtils.ModuleContext.BuildConfigurations | traits/ModuleUtils.php:59-147 | the first loop yields the per-index configurations and the complete reverse map |
| ModuleUtils.ModuleContext.CrossCheckAll | traits/ModuleUtils.php:149-169 | the second loop yields the cross-checked configurations |
| ModuleUtils.ModuleContext.RecordReferences | traits/ModuleUtils.php:134-143 | the reverse map is updated by the three conditional writes for index k |
| ModuleUtils.ModuleContext.CrossChecked | traits/ModuleUtils.php:150-168 | one configuration gains exactly its cross-check errors |
| ModuleUtils.ModuleContext.CheckId | traits/ModuleUtils.php:154-158 | one id check appends the error exactly as the corrected guard says |
| ModuleUtils.ModuleContext.GetAllConfigurations | traits/ModuleUtils.php:26-31 | fails exactly when there are no indexes, else returns the cross-checked configurations |
| ModuleUtils.ModuleContext.GetConfiguration | traits/ModuleUtils.php:203-229 | fails exactly when there are no indexes, else returns the resolution of the project id |
| ModuleUtils.ModuleContext.SetConfigProjectContext | traits/ModuleUtils.php:180-196 | a context already set stays and the call fails; an erroneous or not fully enabled configuration fails; otherwise the context and the three projects are set |
| ModuleUtils.ProjectGettersGuarded | traits/ModuleUtils.php:237-268 | the project getters fail with their messages until the context is set, then return the configuration's ids |
| ModuleUtils.ErroneousConfigurationUnusable | traits/ModuleUtils.php:185-191 | a configuration with any error, the resolver's own included, cannot become the context |
| RedcapUtils.DigitsOnly | traits/REDCapUtils.php:85-111 | a query parameter is returned exactly when it is present and all digits, unchanged; anything else gives null |
| RedcapUtils.DigitIdsAreNumeric | traits/REDCapUtils.php:88-90 | an id accepted by the digit check is a numeric string |
| RedcapUtils.CommaDelimSplitsAtFirst | traits/REDCapUtils.php:166-170 | the code is the trimmed text up to the first ", ", and code, ", " and label give the trimmed text back |
| RedcapUtils.FlattenKeepsEarlier | traits/REDCapUtils.php:172-182 | flattening only grows the array and a nested array never replaces entries already present |
| RedcapUtils.ChoiceArrays | traits/REDCapUtils.php:185-188 | the choice string gives one parsed piece per "\|"-separated part |
| RedcapUtils.UnionOne | traits/REDCapUtils.php:176 | adding a one-entry array with `+` keeps an existing key and appends a new one |
| RedcapUtils.FlattenOne | traits/REDCapUtils.php:172-182 | flattening one parsed piece gives that piece |
| RedcapUtils.ChoicesFromPosition | traits/REDCapUtils.php:184-191 | flattening the pieces from any position equals the first-piece-wins reading of the remaining pieces |
| RedcapUtils.ChoicesFirstWins | traits/REDCapUtils.php:184-191 | the parsed choice list is the first-piece-wins reading of the pieces |
| RedcapUtils.FirstChoiceValue | traits/REDCapUtils.php:184-191 | a code already read keeps its label, a new code gets the label of its first piece, no other code appears |
| RedcapUtils.FirstChoiceDistinct | traits/REDCapUtils.php:184-191 | the parsed choice list never repeats a code |
| RedcapUtils.ChoiceLabels | traits/REDCapUtils.php:184-191 | each code shows the label of its first piece, and codes are distinct |
| RedcapUtils.ArraySpliceAssoc | traits/REDCapUtils.php:204-215 | the removed slice is returned and the array becomes the part before offset, the replacement and the part after offset plus length |
| RedcapUtils.BeforeDisjoint | traits/REDCapUtils.php:209-213 | with disjoint keys, no replacement key is among those before the offset |
| RedcapUtils.AfterDisjoint | traits/REDCapUtils.php:211-213 | with distinct keys, the part after the offset shares no key with the part before or the replacement |
| RedcapUtils.MergeThree | traits/REDCapUtils.php:213 | merging arrays with disjoint string keys concatenates them |
| RedcapUtils.SliceParts | traits/REDCapUtils.php:207-211 | a zero-length splice removes nothing and cuts the array at the offset |
| RedcapUtils.SpliceInserts | traits/REDCapUtils.php:204-215 | with distinct keys, a zero-length splice inside the array inserts the replacement at the offset and removes nothing |
| RedcapUtils.RecordSortKeyShape | traits/REDCapUtils.php:240-247 | an id without "-" sorts as itself; "A-B..." sorts as "A." followed by B padded to ten characters |
| RedcapUtils.FieldDisplayValue | traits/REDCapUtils.php:224-296 | a field the project does not have is shown as given, with no sort key; only the record-id field and date-validated fields get a sort key |
| RedcapUtils.RecordIdSortKey | traits/REDCapUtils.php:240-247 | the record-id field of a non-date field sorts by its record sort key |
| RedcapUtils.SelectThroughDictionary | traits/REDCapUtils.php:254-258 | a select or radio value shows its dictionary label, null when the code is unknown |
| RedcapUtils.CheckedExactly | traits/REDCapUtils.php:260-266 | the checked-options loop keeps exactly the options whose value is "1", each with its label |
| RedcapUtils.CheckboxShowsChecked | traits/REDCapUtils.php:259-268 | a checkbox shows exactly its checked options, each with its label |
| RedcapUtils.SqlUnknownIsBlank | traits/REDCapUtils.php:273-280 | a non-empty sql value outside the fixed dictionaries is shown as "" |
| RedcapUtils.ValidationTypeOf | traits/REDCapUtils.php:131-137 | an empty validation type is null, any other is returned |
| RedcapUtils.LabelOf | traits/REDCapUtils.php:139-145 | an empty label falls back to the key, any other is returned |
| RedcapUtils.ParsedFromPut | traits/REDCapUtils.php:159-162 | caching one more parsed choice list keeps every cached list the parse of the host's dictionary |
| RedcapUtils.DictionaryCache.constructor | traits/REDCapUtils.php:121-129 | the caches start empty and no dictionary has been fetched |
| RedcapUtils.DictionaryCache.GetDataDictionary | traits/REDCapUtils.php:121-129 | returns the host's dictionary, fetching it only when it is not cached |
| RedcapUtils.DictionaryCache.GetFieldValidationTypeFor | traits/REDCapUtils.php:131-137 | returns the validation type of the field in the host's dictionary |
| RedcapUtils.DictionaryCache.GetDictionaryLabelFor | traits/REDCapUtils.php:139-145 | returns the label of the key in the host's dictionary |
| RedcapUtils.DictionaryCache.GetDictionaryValuesFor | traits/REDCapUtils.php:154-164 | returns the parsed choice list of the field, with at most one fetch |
| SpecimenUtils.BoxSpecimenRecords | traits/SpecimenUtils.php:16-22 | a non-numeric box id selects nothing; a numeric one selects exactly the specimens whose stored box_record_id equals it, in record order |
| SpecimenUtils.SpecimensForBox | traits/SpecimenUtils.php:14-26 | one row per selected specimen; each row has exactly the Specimen project's fields, in order, with that specimen's stored values |
| SpecimenUtils.SpecimenRowNamesBox | traits/SpecimenUtils.php:14-26 | each row is the row of an existing specimen stored in the box asked for, and each of its fields reads that record's stored value |
| SpecimenUtils.CandidatesIn | traits/SpecimenUtils.php:37-53 | the query returns exactly the listed specimens stored with one of the requested box ids |
| SpecimenUtils.GetSpecimensForBoxes | traits/SpecimenUtils.php:31-72 | the method returns the grouping of the requested boxes' specimens |
| SpecimenUtils.GroupByBox | traits/SpecimenUtils.php:66-69 | the loop files every specimen under its box in turn |
| SpecimenUtils.FileUnderGet | traits/SpecimenUtils.php:68 | filing a specimen changes only what is filed under its box and record |
| SpecimenUtils.GroupedGet | traits/SpecimenUtils.php:66-69 | each specimen is filed under its own box and under no other |
| SpecimenUtils.SpecimensForBoxesGrouping | traits/SpecimenUtils.php:31-72 | a specimen is filed under box b exactly when it is stored with a requested box id and its row names b, and it is filed with its whole row |
| SpecimenUtils.SpecimenFound | traits/SpecimenUtils.php:93-102 | a specimen is found exactly when its id is numeric and its record exists, and it is that record's row |
| SpecimenUtils.HandleGetSpecimen | traits/SpecimenUtils.php:87-110 | a non-numeric id gives the invalid-id error; otherwise the specimen is there exactly when its record exists, with its row |
| SpecimenUtils.HitsIn | traits/SpecimenUtils.php:165-185 | the query rows are exactly the listed specimens with a name and a box whose name meets the condition, `=` under the column's collation or the database's REGEXP |
| SpecimenUtils.LastRecord | traits/SpecimenUtils.php:181-185 | a name has a record exactly when some row carries it, and that record is one of the rows |
| SpecimenUtils.IndexLastWins | traits/SpecimenUtils.php:181-185 | looking a name up in the index gives the record of its last row |
| SpecimenUtils.IndexFirst | traits/SpecimenUtils.php:181-196 | the index's first entry is the first row's name |
| SpecimenUtils.ClassifyHits | traits/SpecimenUtils.php:187-200 | exact when some row carries the searched name (its last such row chosen), partial otherwise when there are rows (the last row sharing the first row's name), none when there are none |
| SpecimenUtils.FetchChosen | traits/SpecimenUtils.php:202-211 | a fetched specimen is its record's row and the box is the one its box_record_id names |
| SpecimenUtils.HandleSearchSpecimen | traits/SpecimenUtils.php:112-218 | the method returns the search function's answer |
| SpecimenUtils.SearchConditionOf | traits/SpecimenUtils.php:129-161 | the method computes the configured condition and warnings |
| SpecimenUtils.NameIndexOf | traits/SpecimenUtils.php:181-185 | the loop builds the name index, a later row of the same name overwriting an earlier |
| SpecimenUtils.SearchSpecimen | traits/SpecimenUtils.php:112-218 | an empty search is refused before the configuration is read; a configuration error is passed on; otherwise the name is parsed, and a match type is set exactly when the query ran without error (a pattern the database rejects gives its error, caught at :212-214); a record is fetched only when something matched |
| SpecimenUtils.SearchConditionRule | traits/SpecimenUtils.php:117-161 | an empty search is refused; with pre-fill enabled and configured the name must match the specimen pattern with the parsed groups filled in; enabled but incomplete it warns and falls back to the exact name |
| SpecimenUtils.SearchOutcome | traits/SpecimenUtils.php:163-214 | a derived pattern the database rejects gives that error alone, with no match type and nothing fetched; otherwise the match type and the fetched specimen and box, in terms of the specimens the condition selects |
| SpecimenUtils.ChosenIsHit | traits/SpecimenUtils.php:187-200 | a chosen record is a listed specimen whose name meets the condition |
| SpecimenUtils.CollatedVariantIsPartial | traits/SpecimenUtils.php:163-200 | a specimen whose name equals the search only under the column's collation is found, but as a partial match |
| SpecimenUtils.PreparedSpecimenShape | traits/SpecimenUtils.php:228-237 | a prepared specimen keeps a non-empty record id or gets a new one no record has, keeps its completion status or gets "0", and keeps every other entry |
| SpecimenUtils.SavedSpecimenReadsBack | traits/SpecimenUtils.php:239-248 | a save stores each project field the prepared specimen carries under its record id and leaves the record's other fields alone |
| SpecimenUtils.PreparedDistinct | traits/SpecimenUtils.php:228-237 | preparing a specimen keeps its keys distinct |
| SpecimenUtils.HandleSaveSpecimen | traits/SpecimenUtils.php:220-261 | an empty specimen is refused and nothing changes; host errors are passed on and nothing is saved; otherwise the project fields are saved under its record id and the prepared specimen is returned |
| SpecimenUtils.HandleDeleteSpecimen | traits/SpecimenUtils.php:263-284 | succeeds exactly when the id is numeric and the record exists, and then the record is gone; otherwise the invalid-id or delete error and nothing changes |
| SpecimenUtils.HandleGetBox | traits/PlateUtils.php:99-128 | no box shown means an empty box row; a shown box has a non-empty numeric id, a non-empty row and one specimen row per specimen stored in it |
| SpecimenUtils.BoxViewShown | traits/PlateUtils.php:99-128 | a box is shown exactly when its id is a non-empty number, its record exists and the Box project has fields; it is shown with its own row and its specimens |
| PlateUtils.Values | traits/PlateUtils.php:213 | the rows of a record-keyed result, one per entry, in order |
| PlateUtils.GetBoxes | traits/PlateUtils.php:25-44 | the loop returns the first-event rows of the requested boxes keyed by record id; an empty request reads every box |
| PlateUtils.BoxesSelected | traits/PlateUtils.php:34-41 | the records read are all boxes for an empty request, else the requested boxes that exist |
| PlateUtils.GetBox | traits/PlateUtils.php:14-18 | the method returns the box the id names, none for a non-numeric id or a missing box |
| PlateUtils.BoxFound | traits/PlateUtils.php:14-18 | a box is found exactly when its id is numeric and its record exists, and it is that record's row |
| PlateUtils.BoxListRecords | traits/PlateUtils.php:170-211 | the query's records are distinct and are exactly the existing boxes with a name, available when closed boxes are excluded, and matching the search by box name or a linked specimen's name |
| PlateUtils.FilterBoxes | traits/PlateUtils.php:174-206 | filtering keeps exactly the listed boxes the query conditions accept, each once |
| PlateUtils.GetBoxList | traits/PlateUtils.php:163-217 | the method returns the corrected box list |
| PlateUtils.FilterAppend | traits/PlateUtils.php:209-211 | one more record is kept at the end exactly when the query accepts it |
| PlateUtils.BoxList | traits/PlateUtils.php:163-217 | the box list holds, in listing order and each once, the row of every existing box the query accepts |
| PlateUtils.KeepCongruent | traits/PlateUtils.php:34-41 | reading records depends only on which listed records are requested |
| PlateUtils.KeepOwnFilter | traits/PlateUtils.php:212-213 | reading the records a filter kept returns them in the same order |
| PlateUtils.EmptySearchResult | traits/PlateUtils.php:212-214 | a non-empty search that finds no box lists nothing, as written and as corrected |
| PlateUtils.ClosedBoxListedAsWritten | traits/PlateUtils.php:212-213 | as written, excluding closed boxes with no search lists a closed box, while the corrected list is empty |
| ShipmentUtils.ShipmentOf | traits/ShipmentUtils.php:49-62 | the result is [] or a row with exactly the project's fields |
| ShipmentUtils.ShipmentFound | traits/ShipmentUtils.php:49-62 | a shipment is found exactly when its id is numeric, its record exists and the project has fields, and it is the record's row |
| ShipmentUtils.DisplayRow | traits/ShipmentUtils.php:78-82 | showing a row through the display mapping keeps its keys |
| ShipmentUtils.Shipments | traits/ShipmentUtils.php:68-87 | one displayed row per shipment, in record order, as a positional list |
| ShipmentUtils.ShippedBoxesIn | traits/ShipmentUtils.php:148-162 | the box query returns exactly the listed boxes on the shipment that have a name, each with its name |
| ShipmentUtils.ManifestBoxes | traits/ShipmentUtils.php:148-167 | exactly the shipment's named boxes, ordered by box name under the column's collation |
| ShipmentUtils.BoxedSpecimensIn | traits/ShipmentUtils.php:171-194 | the specimen query returns exactly the listed specimens in the box that have a name, each with its position |
| ShipmentUtils.BoxSpecimens | traits/ShipmentUtils.php:171-204 | exactly the named specimens of one box, ordered by box position under the column's collation, with no position first |
| ShipmentUtils.SpecimenPart | traits/ShipmentUtils.php:219-241 | the specimen columns are exactly name, csid, cuid, box_position, volume and comment |
| ShipmentUtils.SpecimenRows | traits/ShipmentUtils.php:239-244 | one row per specimen |
| ShipmentUtils.BoxRows | traits/ShipmentUtils.php:236-245 | one row per specimen of the box |
| ShipmentUtils.GetShipmentManifestData | traits/ShipmentUtils.php:123-248 | the method returns the manifest function's answer |
| ShipmentUtils.BuildManifest | traits/ShipmentUtils.php:147-247 | the method builds the manifest of a found shipment |
| ShipmentUtils.ManifestRowsOf | traits/ShipmentUtils.php:236-245 | the outer loop yields the rows of each box in turn |
| ShipmentUtils.BoxRowsOf | traits/ShipmentUtils.php:238-244 | the inner loop yields one row per specimen of the box |
| ShipmentUtils.RowsForSpecimens | traits/ShipmentUtils.php:239-244 | the loop yields the leading columns followed by each specimen's columns |
| ShipmentUtils.ManifestGuard | traits/ShipmentUtils.php:125-145 | there is a manifest exactly when the id is numeric and the shipment exists with data, and it then carries the shipment |
| ShipmentUtils.ShipmentPartKeys | traits/ShipmentUtils.php:208-232 | the shipment part has distinct keys, all whitelisted shipment columns, in record order |
| ShipmentUtils.StudyNameSecond | traits/ShipmentUtils.php:233-234 | study_name becomes the second column of a non-empty shipment part and the shipment columns keep their order around it |
| ShipmentUtils.InsertKeepsDistinct | traits/ShipmentUtils.php:234 | inserting a new key keeps the keys distinct |
| ShipmentUtils.ManifestRowColumns | traits/ShipmentUtils.php:236-244 | every manifest row is the shipment part, then box_name, then the six specimen columns with the specimen's stored values or NULL |
| ShipmentUtils.RowConcat | traits/ShipmentUtils.php:243 | the three parts share no key, so merging them concatenates them |
| ShipmentUtils.ColumnsDisjoint | traits/ShipmentUtils.php:208-226 | the shipment, box and specimen column lists are disjoint and the specimen columns distinct |
| ShipmentUtils.ManifestOrder | traits/ShipmentUtils.php:157-197 | boxes come in name order and the specimens of each box in position order, both under the column's collation |
| ShipmentUtils.StatusUnderEvent | traits/ShipmentUtils.php:266 | as written, the event-keyed lookup into an already unwrapped row finds nothing |
| ShipmentUtils.CompleteTwiceAsWritten | traits/ShipmentUtils.php:266-268 | as written, completing an already complete shipment goes ahead, where the corrected guard refuses it |
| ShipmentUtils.StatusUpdateEffect | traits/ShipmentUtils.php:257-290 | the update succeeds exactly when nothing refuses it and the host reports no error; it then writes only the shipment's status, and otherwise writes nothing |
| ShipmentUtils.BoxStatusData | traits/ShipmentUtils.php:303-309 | the save data sets box_status, and only it, on each of the boxes |
| ShipmentUtils.ShipmentBoxRecords | traits/ShipmentUtils.php:96-104 | a non-numeric id selects no box; a numeric one selects exactly the boxes stored with that shipment id, each once |
| ShipmentUtils.BoxStatusUpdateEffect | traits/ShipmentUtils.php:299-323 | a non-numeric id is refused; otherwise box_status is set on every box of the shipment and nothing else is written |
| ShipmentUtils.UpdateShipmentStatus | traits/ShipmentUtils.php:257-290 | the store ends as the status-update function says and the method returns its answer |
| ShipmentUtils.UpdateBoxStatusByShipmentId | traits/ShipmentUtils.php:299-323 | the store ends as the box-update function says and the method returns its answer |
| ShipmentUtils.CompleteShipment | traits/ShipmentUtils.php:410-434 | success needs a numeric id and both saves accepted; a non-numeric id, or a shipment save the host refuses, changes nothing |
| ShipmentUtils.HandleCompleteShipment | traits/ShipmentUtils.php:410-434 | the store and reply are those of the two-step completion with its revert |
| ShipmentUtils.CompleteShipmentSucceeds | traits/ShipmentUtils.php:416-429 | a completed shipment is "complete" and every box on it "closed", with nothing else changed |
| ShipmentUtils.ShipmentWriteKeepsBoxes | traits/ShipmentUtils.php:416-422 | writing the shipment status does not change which boxes are on the shipment |
| ShipmentUtils.CompleteShipmentReverts | traits/ShipmentUtils.php:422-427 | when the box step fails the shipment ends "incomplete", no box changes, and the box errors are sent |
| ShipmentUtils.RevertAllowed | traits/ShipmentUtils.php:425 | once completed, setting the shipment back to "incomplete" is not refused |
| ShipmentUtils.StatusWritten | traits/ShipmentUtils.php:270-289 | after an update the shipment is still found and its status reads back as written |
| ShipmentUtils.CheckBoxShipment | traits/ShipmentUtils.php:444-462 | the validation steps produce the guard's error, in the handler's order |
| ShipmentUtils.UpdateBoxShipment | traits/ShipmentUtils.php:443-485 | a refused link saves nothing; success needs a numeric box id and the host's acceptance |
| ShipmentUtils.HandleUpdateBoxShipment | traits/ShipmentUtils.php:443-485 | the store and reply are those of the link update |
| ShipmentUtils.UpdateBoxShipmentEffect | traits/ShipmentUtils.php:463-480 | the link is saved exactly when the guard passes and the host accepts, and then only the box's shipment_record_id changes (an empty id erases it) |
| ShipmentUtils.BoxShipmentGuardRule | traits/ShipmentUtils.php:444-462 | nothing refuses the link exactly when the box id is numeric, the box exists with data, and the shipment id is empty or names an existing shipment |
| ShipmentUtils.LinkNeverSavedAsWritten | traits/ShipmentUtils.php:452 | as written, if the host resolves no `getPlate`, the call ends every request that passes the id checks with an error and saves nothing, while the corrected handler links an existing box |
| ReportUtils.FlaggedStep | traits/ReportUtils.php:29-33 | one more configuration entry flags a field exactly when it is that field and its flag is truthy, or an earlier entry flags it |
| ReportUtils.ReportColumnsSelect | traits/ReportUtils.php:27-47 | a field is a report column exactly when its reporting-table flag is truthy, and its column carries its metadata label |
| ReportUtils.SelectColumns | traits/ReportUtils.php:29-33 | the selection loop yields the project's report columns |
| ReportUtils.TabulateGet | traits/ReportUtils.php:66-68 | a tabulated row holds exactly the named fields, each with its value |
| ReportUtils.TabulateKeys | traits/ReportUtils.php:66-68 | with distinct names the row's fields come in the order of the names |
| ReportUtils.TabulateSame | traits/ReportUtils.php:66-68 | value maps that agree on the names give the same row |
| ReportUtils.Tabulated | traits/ReportUtils.php:93-95 | the field loop yields the tabulated row |
| ReportUtils.PickTabulated | traits/ReportUtils.php:99-102 | picking the named fields out of a row tabulated over them gives the row back |
| ReportUtils.QueryFields | traits/ReportUtils.php:61 | the specimen query reads the report fields and box_record_id, and nothing else |
| ReportUtils.FileShownGet | traits/ReportUtils.php:69 | filing a row changes only what is filed under its box and record |
| ReportUtils.SpecimenGroupsGet | traits/ReportUtils.php:63-70 | each specimen is filed under the box its row names, with its display row, and nowhere else |
| ReportUtils.CountPut | traits/ReportUtils.php:69 | putting a box's specimens replaces the count filed under it |
| ReportUtils.SpecimenGroupsCount | traits/ReportUtils.php:63-70 | grouping files every specimen exactly once |
| ReportUtils.GroupSpecimens | traits/ReportUtils.php:63-70 | the grouping loop yields the specimen groups |
| ReportUtils.BoxRowsGet | traits/ReportUtils.php:74-81 | every box the query returns has its row of report fields plus shipment_record_id, and no other box has one |
| ReportUtils.CollectBoxRows | traits/ReportUtils.php:73-81 | the box loop yields the box rows |
| ReportUtils.ShipmentForFinds | traits/ReportUtils.php:84-91 | looked up by record id, a box's shipment is exactly the shipment record it names |
| ReportUtils.ShipmentsById | traits/ReportUtils.php:84-91 | every shipment record has one entry, under its own record id rather than its position |
| ReportUtils.DisplayRowGet | traits/ShipmentUtils.php:76-82 | a shipment display row holds each requested field's display value |
| ReportUtils.ShipmentLostAsWritten | traits/ReportUtils.php:91 | as written, with the single shipment "1", a box naming it finds no shipment although one is stored |
| ReportUtils.ShipmentShiftedAsWritten | traits/ReportUtils.php:91 | as written, with shipments "1" and "2", a box naming "1" is joined with shipment "2" |
| ReportUtils.BoxSpecimenRows | traits/ReportUtils.php:97-105 | one row per specimen of the box |
| ReportUtils.BoxSpecimenRowsAt | traits/ReportUtils.php:97-105 | the j-th row of a box is its j-th specimen's |
| ReportUtils.BoxGroupRows | traits/ReportUtils.php:86-105 | one row per specimen filed under the box |
| ReportUtils.JoinedCount | traits/ReportUtils.php:86-106 | the join gives one row per filed specimen when each box gives one row per specimen |
| ReportUtils.JoinedHas | traits/ReportUtils.php:86-106 | every row of every box is a report row |
| ReportUtils.SpecimenRowsOf | traits/ReportUtils.php:97-105 | the specimen loop yields the box's rows |
| ReportUtils.JoinRows | traits/ReportUtils.php:86-106 | the join loop yields the report rows box by box |
| ReportUtils.JoinedRowCount | traits/ReportUtils.php:86-106 | the join gives one row per filed specimen |
| ReportUtils.HandleGetReportData | traits/ReportUtils.php:9-112 | the method returns the report function's answer, which looks shipments up by record id (the corrected lookup) |
| ReportUtils.GetReportData | traits/ReportUtils.php:9-112 | a configuration error leaves the report empty and carries the error; otherwise there is no error, the configured columns are sent and there is one row per specimen record, joined with shipments looked up by record id (the corrected lookup) |
| ReportUtils.ReportData | traits/ReportUtils.php:55-106 | the report has exactly one row per specimen record, whether or not its box or shipment exists (the rows' order and their multiset are not stated here; see `ReportData:` under Left out) |
| ReportUtils.BoxesOfGroups | traits/ReportUtils.php:72-81 | the boxes the report reads hold the row of every stored box some specimen names |
| ReportUtils.FiledSpecimen | traits/ReportUtils.php:59-70 | every stored specimen is filed under the box it names with its display row |
| ReportUtils.FiledAt | traits/ReportUtils.php:86-97 | a filed row sits at some box position and some specimen position of the groups |
| ReportUtils.PartsOfBox | traits/ReportUtils.php:87-95 | the box and shipment parts the join computes are the record-by-record lookups |
| ReportUtils.FiledRowReported | traits/ReportUtils.php:86-106 | every filed specimen has its row in the report: its box's shipment and box parts, then its own fields |
| ReportUtils.ReportHasEachSpecimen | traits/ReportUtils.php:55-106 | every stored specimen's row appears in the report as the record-by-record lookup gives it |
| ReportUtils.FiledReported | traits/ReportUtils.php:86-106 | a specimen filed under the box it names has its expected row in the join |
| ReportUtils.FiledRowIn | traits/ReportUtils.php:86-106 | a filed specimen's box is a group key and its row is in the join |
| ReportUtils.ExpectedRowJoined | traits/ReportUtils.php:86-104 | the expected row of a filed specimen is the row the join builds from its box's parts |
| ReportUtils.MergeGet | traits/ReportUtils.php:104 | in a merge a later part wins for a shared field and each part adds its own |
| ReportUtils.ReportRowGet | traits/ReportUtils.php:104 | a report row shows a field from the specimen, else from the box, else from the shipment |
| ReportUtils.ReportRowKeys | traits/ReportUtils.php:104 | a report row lists the shipment columns, then the box columns not already present, then the specimen columns not already present |
| ReportUtils.RawValueOf | traits/ReportUtils.php:65-67 | a raw value read from a row is the stored value, null when the query does not return the field |
| ReportUtils.BoxPartGet | traits/ReportUtils.php:76-89 | the box part holds each box report field: its display value, or the raw shipment reference |
| ReportUtils.SpecimenPartGet | traits/ReportUtils.php:66-67 | the specimen part holds each specimen report field's display value of the stored value |
| ReportUtils.StoredBoxPartGet | traits/ReportUtils.php:74-89 | when the box exists its part holds each box report field, and its row names the box's shipment |
| ReportUtils.ShipmentPartGet | traits/ReportUtils.php:92-95 | the shipment part holds each shipment report field of the named shipment, null when it lacks one |
| ReportUtils.ExpectedRowGet | traits/ReportUtils.php:86-104 | what a specimen's row shows for a field: its own display value for a specimen report field; else the box's value when the box exists; else the value of the shipment its box names |
| ClientUtils.Prop | src/ModuleUtils.js:71-72 | reading a property of a non-object gives undefined |
| ClientUtils.Lookup | src/ModuleUtils.js:71-72 | a missing property is undefined, and a defined one is a property of the object |
| ClientUtils.TextNumber | src/ModuleUtils.js:58 | whole-number text converts exactly when it is blank or an optionally signed run of digits after trimming |
| ClientUtils.IsNumber | src/ModuleUtils.js:58 | undefined, null and objects are not numbers, numbers and booleans are, and non-empty text is one exactly when, trimmed, it is blank or a signed whole number |
| ClientUtils.ParseInt | src/ModuleUtils.js:59 | a number parses to itself and signed-digit text to its value |
| ClientUtils.FormatDate | src/ModuleUtils.js:42-55 | an unrecognised format returns the date unchanged; a known one reformats from the stored form to the display form |
| ClientUtils.DisplayFormatsRead | src/ModuleUtils.js:43-52 | date formats read the date-only stored form and datetime formats the form with a time, and the display form has the same length |
| ClientUtils.MinutesToHuman | src/ModuleUtils.js:57-64 | a non-number is returned unchanged; a number that parses becomes its count of minutes in words; the call fails exactly for a number that does not parse |
| ClientUtils.Subject | src/ModuleUtils.js:67-68 | an empty field or target is shown as "placeholder", any other as its text |
| ClientUtils.MessageShape | src/ModuleUtils.js:66-86 | the message always reads "d1 must be timeafter d2" with the placeholder rule for the two names |
| ClientUtils.MessageParts | src/ModuleUtils.js:85 | the message starts with the field name and " must be ", then the time phrase, and ends with "after " and the target |
| ClientUtils.NoTimePhrase | src/ModuleUtils.js:69-80 | without extras, or with neither bound, the time phrase is empty |
| ClientUtils.BetweenPhrase | src/ModuleUtils.js:73-74 | with both bounds as numbers the phrase is "between t1 and t2 " |
| ClientUtils.MinimumPhrase | src/ModuleUtils.js:75-76 | with only a minimum the phrase is "a minimum t1 " |
| ClientUtils.MaximumPhrase | src/ModuleUtils.js:77-78 | with only a maximum the phrase is "a maximum t2 " |
| ClientUtils.TextBoundShown | src/ModuleUtils.js:57-64 | a bound that is text but not a number is shown as it is |
| ClientUtils.AfterDateTimeErrorMessage | src/ModuleUtils.js:66-86 | the message fails exactly when there are extras and a bound passes the number check but does not parse |
| ClientUtils.RowIndex | src/ModuleUtils.js:92-101 | a one- or two-letter row label has an index below 702 |
| ClientUtils.RowName | src/ModuleUtils.js:92-101 | every index names a one- or two-letter row label |
| ClientUtils.RowNameIndex | src/ModuleUtils.js:92-101 | index to label to index is the identity |
| ClientUtils.RowIndexName | src/ModuleUtils.js:92-101 | label to index to label is the identity |
| ClientUtils.RowOffsetIndex | src/ModuleUtils.js:92-101 | a row's offset is its index times the row length, so AA follows Z |
| ClientUtils.SlotPosition | src/ModuleUtils.js:88-103 | a matched slot with a row label and a numeric column is at the row's index times the row length plus the column |
| ClientUtils.LongRowIgnored | src/ModuleUtils.js:90-102 | a row of any other length contributes 0 |
| ClientUtils.ToNumericBoxPosition | src/ModuleUtils.js:88-103 | an unmatched label throws, and a non-numeric column gives NaN |
| ClientUtils.SlotPositionsDistinct | src/ModuleUtils.js:88-103 | within a box, slots with columns 1..cols get distinct numbers, so the number gives back row and column |
| ClientUtils.TokenEnd | src/ModuleUtils.js:8 | a "<name>" token found at the start ends at a '>' |
| ClientUtils.GetRegExpGroups | src/ModuleUtils.js:110-118 | an empty pattern gives no names; otherwise the names the capture regex finds, match by match |
| ClientUtils.MatchAll | src/ModuleUtils.js:113-115 | the match loop collects the name of every match in order |
| ClientUtils.GroupsAreNames | src/ModuleUtils.js:8 | every name reported is one or more word characters |
| ClientUtils.NameEndWords | src/ModuleUtils.js:8 | the text up to a name's end is a group name |
| ClientUtils.NoOpenSkipped | src/ModuleUtils.js:8 | text without '<' contributes no name |
| ClientUtils.NameEndAt | src/ModuleUtils.js:8 | word characters up to a '>' end the name there |
| ClientUtils.GroupOpening | src/ModuleUtils.js:8 | a named group "(?<n>" followed by text reports n, then the names of the text |
| ClientUtils.NameOpening | src/ModuleUtils.js:8 | "<n>" followed by text reports n, then the names of the text |
| ClientUtils.GroupsOfPattern | src/ModuleUtils.js:110-118 | for a pattern of literals and named groups without stray '<', the names reported are exactly its groups' names, in order |
| ClientUtils.TokenGroups | src/ModuleUtils.js:8 | one piece of such a pattern contributes its group name, if it is a group |

## Left out

- `handleInitializeConfigDashboard` (traits/ConfigUtils.php:11-46) only gathers the project handles, URLs and configurations the page is built from. That is view data, so it is not modelled.
- `handleInitializeBoxDashboard` (traits/PlateUtils.php:62-97) only assembles URLs and settings for the page. It is not modelled.
- `handleGetBoxList` and `handleSearchBoxList` (traits/PlateUtils.php:130-161) call `getBoxList` with `(true, null)` and `(false, search)`. Only `PlateUtils.BoxList` / `PlateUtils.GetBoxList` are modelled, with those arguments as parameters.
- `handleInitializeShipmentDashboard` and `handleSearchShipments` (traits/ShipmentUtils.php:331-408) build page URLs and wrap `getShipments`. Only `getShipments` is modelled.
- `getShipmentFields` and `getNewShipmentURL` (traits/ShipmentUtils.php:17-47) only build a field list and a URL for the views. They are not modelled.
- `getBoxesByShipment` also attaches each box name's parsed parts (`name_parsed`). The model keeps the boxes and their fields and leaves the parsing to `NamePatterns`.
- `getMyMetadata` (traits/REDCapUtils.php:18-83) appears only through what `getFieldDisplayValue` reads. That covers the fields, the form-status labels, the date formats and the yes/no and true/false labels. Its per-form event and repeating flags and its memoisation are left out.
- The report's date and timestamp columns are read from the clock, so they are not modelled.
- The JavaScript helpers `qs_get`, `qs_push`, `qs_remove` and `deepMerge` handle the browser's URL and plain objects. They are not modelled.
- `warningAcknowledgementMessagePreview` depends on the current time, so it is not modelled.
- ClientUtils.TextNumber: JavaScript's `Number()` is modelled for blank and whole decimal text only. Hexadecimal, fractional and exponent forms, `Infinity` and non-ASCII whitespace count as not a number.
- ClientUtils.ParseInt: `parseInt` is pinned down only for numbers and for text that is a whole decimal number. Text with trailing characters after the digits is not described.
- ClientUtils.RowOffset: letters are counted as characters, not as UTF-16 code units.
- ClientUtils.SlotExec: a match always carries both the `row` and the `col` group. A match in which either group is undefined (an optional group, or a pattern without those names) cannot be represented; the source then computes `NaN` or throws reading `undefined.length`.
- ClientUtils.Text: a template literal of an array or object value is modelled as the text of an object.
- The regular-expression engines are parameters (`Preg`, `SqlRegexp`, `SlotExec`). So are date parsing and formatting (`DateFunctions`, `Reformat`) and luxon's `Duration` wording (`Humanize`). Their own behaviour is not modelled. `SqlRegexp` also gives the error the database raises for a pattern it cannot compile; which patterns those are is the engine's behaviour and is a parameter too.
- REDCapUtils' output, timer and file helpers (traits/REDCapUtils.php:298-427) do I/O only. They are not modelled.
- Request dispatch is not part of this model. Neither are the manifest CSV export, the page hooks, the views or the HTML escaping applied to responses.
- The handlers `handleValidateCSID` and `handleValidateCUID`, which the request dispatcher calls, are not part of this model.
- The exceptions that `getPlateProject`, `getSpecimenProject` and `getShipmentProject` throw when no context is set are modelled in `ModuleUtils.ModuleContext` only. The handlers are modelled with the context already set, as the dispatcher sets it before calling them.
- Where the code calls `getBoxProject`, the model uses the Box project, the one `getPlateProject` returns. No trait of the module and not `OrcaSpecimenTracking.php` defines `getBoxProject`; the code is part way through renaming Plate to Box, and the model reads the new name as the old method.
- `getFieldMetadata($project_name, $field_name)` (traits/ConfigUtils.php:145) is not defined in the module either. The model stands in `RecordStore.FieldMeta`, the field's type, validation and label from the project's data dictionary, for what it returns.
- UpdateBoxShipment: the box is looked up with `getBox`, where the code calls a `getPlate` that takes the box name pattern and is defined nowhere in the module, like `getBoxProject` and `getFieldMetadata` (see Findings). The pattern argument plays no part.
- Shipments: each row also gets a `shipment_dashboard_url` entry, a page link built from the request URL. That entry is not modelled.
- FieldMetadataConfig: the default table is a map from surface to setting, so the order in which the code lists the surfaces (traits/ConfigUtils.php:68-77) is not kept. `ConfigUtils.Surfaces` lists them in that order.
- ManifestBoxes: the box query (traits/ShipmentUtils.php:148-162) reads the fixed table `redcap_data`, where the module's other queries read the project's own data table (`getDataTable`, `project["data_table"]`). The model reads the Box project's records wherever they are stored, so it assumes the Box project is stored in `redcap_data`; for a project in another data table the source's manifest finds no box. ShippedBoxesIn carries the same assumption.
- BoxSpecimens: the specimen query (traits/ShipmentUtils.php:171-198) reads `redcap_data` in the same way. The model assumes the Specimen project is stored there; otherwise the source's manifest rows carry no specimen. BoxedSpecimensIn carries the same assumption.
- HitsIn: the search query (traits/SpecimenUtils.php:164-170) has no `ORDER BY`, so the database chooses its row order. The model takes the rows in the project's listing order. Which record a name keeps (the last row, traits/SpecimenUtils.php:181-184) and which name `reset` picks for a partial match (traits/SpecimenUtils.php:193-196) depend on that order. `SpecimenUtils.ChosenIsHit` holds for any order; the particular record chosen does not.
- SearchOutcome: the fetched specimen is stated for the listing order only, as on the `HitsIn:` line. The match type (exact, partial or none) does not depend on the row order.
- Checkbox values: a cell of the record store holds one text. A checkbox field stores one row per checked option, and `getData` returns those as a nested array keyed by option code; the store cannot hold that shape. So `RedcapUtils.FieldDisplayValue`'s checkbox branch is reached only through `RedcapUtils.CheckboxShowsChecked`, which takes the option map as its argument. `ShipmentUtils.Shipments` and `ReportUtils.DisplayRowGet` never show a checkbox field as checked.
- Where: REDCap's filter logic `[field] = 'value'` is modelled as exact equality of the stored text. The host's own comparison rules are not modelled.
- ListedBox: the box-list query's `d2.value = 'available'` (traits/PlateUtils.php:178) is compared exactly, not under the column's collation. So is its join `d1.record = s1.value` (traits/PlateUtils.php:182), in `PlateUtils.LinkedSpecimenMatches`.
- ReportData: the contract gives one row per specimen record and, with `ReportUtils.ReportHasEachSpecimen`, that each specimen's expected row is in the report. It does not state the rows as a multiset of expected rows, nor their order, which follows the grouping of the specimens by box.
- PreparedSpecimen: values are strings, so `?? "0"` on a completion status that is explicitly null is not modelled; the model only sees a missing status. A record id reserved for a save the host then refuses is not consumed: the store's next reservation gives the same id again, where REDCap's reservation table would not.
- ReplaceGroupAll: a chosen group name is put into the replacement pattern as plain text. A name holding regular-expression syntax or '#' would change the pattern; group names of a valid pattern are word characters. A failing `preg_replace`, which returns null, is not modelled.
- `is_numeric` on fractional and exponent text is modelled on the text. Numeric comparisons such as `<= 0` are modelled on whole numbers, and floating-point rounding is left out.
- Concurrency between requests is not modelled. The host's record store is one value per call.

## Findings

| source | as written | input that shows it | evidently intended | confidence | as-written member | corrected member |
|---|---|---|---|---|---|---|
| traits/ShipmentUtils.php:266 | the "status is already" guard reads the event id as a key of the row `getShipment` returns, which is already the event's row, so it reads nothing and never refuses | shipment record "1" whose `shipment_status` is already "complete", completed again | refuse to set a shipment to the status it already has | not executed | ShipmentUtils.CompleteTwiceAsWritten | ShipmentUtils.StatusUpdateEffect |
| traits/ReportUtils.php:91 | the shipment of a box is looked up by its record id in the positional list `getShipments` returns | shipments "1" and "2"; a box naming shipment "1" is joined with shipment "2", and with a single shipment "1" it is joined with none | the shipment whose record id the box names | not executed | ReportUtils.ShipmentShiftedAsWritten | ReportUtils.ShipmentForFinds |
| traits/PlateUtils.php:212-213 | with no search the boxes are read even when the query found no record, and `getData` with an empty record list returns every record | one box, closed, listed with closed boxes excluded and no search | an empty list when no open box matches | not executed | PlateUtils.ClosedBoxListedAsWritten | PlateUtils.BoxList |
| traits/ModuleUtils.php:154-166 | the cross-configuration check counts the project map of any non-null id, but an empty id was never recorded in the map | a configuration whose Box project id is the empty string (a cleared setting) | skip ids that were never recorded; the empty id is already reported as a missing project | not executed | ModuleUtils.CrossCheckEmptyIdThrows | ModuleUtils.TooManyIffShared |
| traits/ShipmentUtils.php:452 | the box is checked with `getPlate($box_record_id, $system_config["box_name_regex"])`. The code is part way through renaming Plate to Box: no trait defines `getPlate`, nor `getBoxProject` or `getFieldMetadata`, which the model reads as the Box project and the data-dictionary lookup. `getPlate` is the one such call whose new-name method (`getBox`) takes different arguments. If the host resolves no `getPlate`, the call fails and no link is ever saved | box record "1" existing, linked to no shipment (empty shipment id) | check the box with `getBox`, the module's box lookup | not executed; depends on which methods the host resolves | ShipmentUtils.LinkNeverSavedAsWritten | ShipmentUtils.UpdateBoxShipmentEffect |
