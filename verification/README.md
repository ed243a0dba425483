# go-cap REDCap client, modelled in Dafny

go-cap is a Go client for the REDCap electronic data-capture API. This model
covers its core:

- **Decoding metadata fields** (`redcap/field.go`). Each JSON metadata record
  becomes a `RedcapField`. It carries fifteen text attributes, a required
  flag and, for checkbox, dropdown and radio fields, the choices parsed from
  the pipe-separated `"id, label | id, label"` text.
- **Forms** (`redcap/form.go`). A form collects fields by name and in
  insertion order. It writes a PostgreSQL `CREATE TABLE` statement:
  - the unique-key column comes first;
  - the event column follows when the project is longitudinal;
  - each field contributes one column, or one column per choice for a
    checkbox;
  - a field named like the unique key contributes no column;
  - `form_status` closes the column list.
- **Projects** (`redcap/project.go`). A project:
  - fetches its metadata once and caches it;
  - takes the first field as the unique key;
  - lists the field labels;
  - rebuilds its forms from the metadata;
  - writes every form's statement;
  - builds the form values of an export-records request.

The Dafny modules follow the Go package's files:

| module | file | models |
|---|---|---|
| `Outcomes` | outcomes.dfy | results and errors that stand in for `log.Fatal` and panics |
| `GoStrings` | go_strings.dfy | the `strings` and `strconv` functions the package uses: `Split`, `Join`, `TrimSpace`, `TrimRight`, `Atoi`, `%d` and `FormatBool` |
| `Fields` | field.dfy | `RedcapField`, `RedcapFieldChoice` and `UnmarshalJSON` |
| `Sql` | sql.dfy | the statement `RedcapForm.ToSQL` writes, as pure functions |
| `ProjectMetadata` | metadata.dfy | the fetched metadata and its grouping into forms, as pure functions |
| `Export` | export.dfy | the request `ExportRecords` posts |
| `Redcap` | redcap.dfy | the classes `RedcapForm` and `RedcapProject`, and `NewRedcapProject` |

`RedcapForm` and `RedcapProject` are classes whose methods update fields in
place, as the Go methods on `*RedcapForm` and `*RedcapProject` do. Each
method's ensures give its result or its new state, either directly in terms
of the object's fields and their `old` values, or in terms of pure functions
such as `Fields.Decode`, `Sql.Statement`, `ProjectMetadata.FetchMetadata`,
`ProjectMetadata.FieldsOf`, `ProjectMetadata.FormNames` and `Redcap.Filed`.
The lemmas about those functions state what the Go code promises.

How Go features are represented:

- Every `log.Fatal`, failed type assertion, out-of-range index and nil-map
  write becomes an `Err` of the `Outcomes.Error` datatype. In Go these stop
  the program or panic.
- The HTTP response becomes a parameter. Each fetching method takes
  `response: Result<seq<map<string, string>>>`: either the records of the
  JSON array, or the failure to obtain or read it. The response is used only
  when the metadata is not yet cached.
- Go's random map iteration order in `RedcapProject.ToSQL` becomes an
  explicit `order` parameter that lists each form name once.

Points where the code could be read more than one way, and the reading the
model takes:

- `project.go` also holds an older `ToSQL` (project.go:274-295). It omits the
  unique-key column when the form holds that field (project.go:281-284).
  The model follows form.go instead: `RedcapForm.ToSQL` always emits the
  unique-key column first (form.go:42) and skips that field in the loop
  (form.go:55-56). A unique key that is a checkbox with choices is therefore
  still fanned out (form.go:49-52).
- A choice's label is the text between the first and the second comma
  (field.go:67-73, which uses `strings.Split`). It is not
  everything after the first comma.
- The statement in form_test.go:13-21 includes the event column, so it is
  the statement of a longitudinal project. `Sql.TestingFormStatement` proves
  that statement.
- An empty metadata list is an error. Go indexes `fields[0]` at
  project.go:158, and that index panics.

## Model

| member | source | states |
|---|---|---|
| Fields.UnmarshalJSON | redcap/field.go:37-92 | the decoder's loop-and-branch code computes exactly `Decode(record)`: the field, or the first missing key, bad id or missing label |
| Fields.ParseChoiceList | redcap/field.go:62-76 | the choice loop over the pipe-separated segments yields exactly `ParseChoices` of the split text |
| Fields.ParseChoicesMatchesSegments | redcap/field.go:64-76 | parsing succeeds iff every non-empty trimmed segment parses; then there is one choice per such segment, in segment order |
| Fields.ParseChoicesFirstError | redcap/field.go:67-72 | a failed choice list reports the error of the first kept segment that fails, and all earlier ones parse |
| Fields.DecodeReadsRecord | redcap/field.go:45-88 | a decoded field holds the record's text for each of the fifteen attributes, Calculations only for "calc", choices only for checkbox/dropdown/radio, and required iff the flag is "Y" |
| Fields.DecodeSucceeds | redcap/field.go:45-88 | decoding succeeds iff every key it reads is present and, for a choice type, the choice list parses |
| Fields.DecodeFirstMissingKey | redcap/field.go:45-59 | the first missing attribute key, in reading order, is the reported error |
| Fields.DecodeChoiceFailure | redcap/field.go:63-72 | for a choice type, a missing choice string or a failing choice list is the reported error |
| Fields.DecodeRequiredMissing | redcap/field.go:84 | with everything before it in place, a missing required flag is the reported error |
| Fields.ParseChoiceOfParts | redcap/field.go:67-74 | a segment "id,label[,…]" parses to Atoi of the id with the label between the first two commas, or fails with a bad id |
| Fields.ParseChoiceWithoutComma | redcap/field.go:67-73 | a segment without a comma fails: a bad id, or else a missing label (`s[1]` out of range) |
| Fields.ParseFormattedChoice | redcap/field.go:67-74 | round trip: a choice with an int64 id and a comma-free label, written "id,label", parses back to itself |
| GoStrings.Split | redcap/field.go:64 | `strings.Split` with a one-character separator gives at least one piece, and no piece holds the separator |
| GoStrings.JoinSplit | redcap/field.go:64 | joining the pieces of a split with the separator gives back the input |
| GoStrings.SplitJoin | redcap/project.go:211-214 | splitting a join of separator-free pieces gives back the pieces |
| GoStrings.TrimSpaceRemovesOnlySpace | redcap/field.go:65 | the input is leading space + trimmed text + trailing space, and the trimmed text neither starts nor ends with space |
| GoStrings.TrimRightRemovesOnlyCutset | redcap/form.go:64 | `TrimRight` keeps a prefix, drops only cutset characters, and leaves a last character outside the cutset |
| GoStrings.Atoi | redcap/field.go:68 | a parsed id lies in the int64 range, and the text starts with a digit or a sign |
| GoStrings.AtoiReadsDigits | redcap/field.go:68-72 | Atoi accepts only an optional sign, leading zeros and the digits of the value, with a minus for every negative value; any other text is a bad id |
| GoStrings.AtoiAcceptsDigits | redcap/field.go:68-72 | conversely, Atoi accepts every optional sign followed by decimal digits, leading zeros included, whose signed value fits in an int64, and reads that value |
| GoStrings.AtoiFormatInt | redcap/field.go:68 | Atoi reads back what `%d` writes, for every int64 |
| GoStrings.FormatIntCharacters | redcap/form.go:51 | `%d` writes only digits and a minus sign |
| ProjectMetadata.DecodeMetadata | redcap/project.go:152-155 | decoding the array record by record gives exactly `DecodeAll(records)` |
| ProjectMetadata.DecodeAllRecords | redcap/project.go:152-155 | the array decodes iff every record does, and then gives one field per record, in order |
| ProjectMetadata.DecodeAllFirstError | redcap/project.go:152-155 | a failed array reports the first failing record's error |
| ProjectMetadata.FetchedMetadata | redcap/project.go:137-161 | a fetch succeeds exactly when the response was read, is non-empty and every record decodes, and then holds the decoded records in order; an unreadable response is the error, the first record that fails to decode gives the error, and an empty list is EmptyMetadata |
| ProjectMetadata.FormNamesOfFields | redcap/project.go:185-193 | the form names are distinct, and a name is among them iff some field carries it |
| ProjectMetadata.FieldsOfForm | redcap/project.go:185-193 | a form's list holds only fields of that form, each as often as in the metadata |
| ProjectMetadata.FieldsOfUnnamedForm | redcap/project.go:185-193 | a name that no field carries has no fields |
| ProjectMetadata.FormsPartitionFields | redcap/project.go:185-193 | the forms' field lists together are a permutation of the metadata: nothing is dropped or duplicated |
| ProjectMetadata.GroupsPartition | redcap/project.go:185-193 | the same partition holds for any distinct list of names that covers every field's form |
| ProjectMetadata.GetFormsAsWrittenPanics | redcap/project.go:187-189 | as written, GetForms fails with a nil-map write on any non-empty metadata |
| Sql.StatementLayout | redcap/form.go:41-64 | the statement opens with the table header and the unique-key column, then the event column when longitudinal, and closes with `form_status` and ");" |
| Sql.EventColumnInserted | redcap/form.go:43-45 | the longitudinal statement is the other one with the event column inserted right after the unique key, and nothing else changed |
| Sql.BodyColumnsFromFields | redcap/form.go:47-61 | a column comes from the fields iff some field contributes it |
| Sql.UniqueKeySuppressed | redcap/form.go:53-57 | apart from checkbox columns, no field contributes the unique key's column |
| Sql.UniqueKeyOnce | redcap/form.go:42-57 | the unique key is a column exactly once, whether or not the form holds the unique-key field |
| Sql.CheckboxColumnIds | redcap/form.go:49-52 | one column per choice, in choice order, each "name___" followed by text that Atoi reads back as the choice's id |
| Sql.TerminatedJoin | redcap/form.go:47-63 | the loop's text is the column definitions joined by ",\n" plus one trailing ",\n" |
| Sql.TrimFinalSeparator | redcap/form.go:64 | `TrimRight(_, ",\n")` removes exactly the final separator after a definition |
| Sql.FinishTable | redcap/form.go:63-64 | trimming the loop's text and appending ");" gives the CREATE TABLE statement |
| Sql.FormOpening | redcap/form.go:41-45 | the text before the loop is the header plus the definitions of the lead columns, with or without the event column |
| Sql.FormClosing | redcap/form.go:63-64 | the status definition, trimming and closing turn the text into `Statement(POSTGRES, …)` |
| Sql.StatementJoin | redcap/form.go:41-64 | a statement is its lines joined by newlines |
| Sql.TableLinesSingle | redcap/form.go:41-64 | with a newline-free name and columns, no line of the statement holds a newline |
| Sql.StatementLines | redcap/form.go:41-64 | splitting the statement at newlines gives its lines: blank, CREATE TABLE, "(", each column (comma after every one but the last) and ");" |
| Sql.TestingFormStatement | redcap/form_test.go:13-22 | the "testing" form of a longitudinal project keyed by study_id, with foo_score and bar_score, gives the expected statement |
| Sql.TestingFormColumns | redcap/form_test.go:13-22 | the columns of that form are study_id, redcap_event_name, foo_score, bar_score, form_status |
| Sql.CheckboxStatementColumns | redcap/project_test.go:25-27 | a checkbox matcheck1 with choices 1, 2, 3 gives columns matcheck1___1, matcheck1___2, matcheck1___3 |
| Export.WithDefaults | redcap/project.go:200-208 | an empty rawOrLabel, eventName or format becomes "raw", "label" or "json"; a caller's setting is kept and nothing else changes |
| Export.ExportRequest | redcap/project.go:210-231 | token and "record" content, the defaulted settings, and each flag "true" iff set |
| Export.FormValues | redcap/project.go:216-231 | the posted values have exactly the twelve request keys |
| Export.FormValuesCarryFields | redcap/project.go:216-231 | each posted key carries the request field of the same name |
| Export.DefaultsIdempotent | redcap/project.go:200-208 | filling in the defaults twice is filling them in once |
| Export.FilterRoundTrip | redcap/project.go:211-214 | an empty filter is ""; a non-empty filter of comma-free names is recovered by splitting at commas |
| Export.RequestFilterRoundTrip | redcap/project.go:211-225 | each of the four list filters is "" when empty, and otherwise round-trips through its request value |
| Redcap.FieldIndexHoldsLastField | redcap/form.go:29-32 | a name that was added is in the index and maps to the last field added under it |
| Redcap.FieldIndexOnlyAddedNames | redcap/form.go:29-32 | a name never added is not in the index |
| Redcap.FieldIndexByName | redcap/form.go:30 | every indexed field is filed under its own name |
| Redcap.FiledForm | redcap/project.go:185-193 | after filing the fields, a name has a form iff it is a form name, and that form holds its fields in metadata order under their index |
| Redcap.FiledByForm | redcap/project.go:185-193 | FiledForm for every name at once |
| Redcap.RedcapForm.String | redcap/form.go:16-18 | the text is "REDCAP Form: " followed by the form's name |
| Redcap.RedcapForm.ContainsField | redcap/form.go:20-27 | true iff some stored field has the name; for a valid form, iff a field of that name was added |
| Redcap.RedcapForm.ValidLookup | redcap/form.go:20-32 | in a valid form, a name is a key iff a stored field has it iff a field of that name was added |
| Redcap.RedcapForm.constructor | redcap/project.go:187 | a new form has the name, the project's unique key, the project and no fields, and is valid (the corrected literal) |
| Redcap.RedcapForm.AddFieldToForm | redcap/form.go:29-32 | files the field under its name, replacing an earlier one, and appends it to the order; validity is kept |
| Redcap.RedcapForm.ToSQL | redcap/form.go:37-71 | the result is `Sql.Statement` of the form's name, unique key, longitudinal flag and field order; "" for another dialect |
| Redcap.BodyDefinitions | redcap/form.go:47-61 | the field loop writes exactly the definitions of `BodyColumns` |
| Redcap.CheckboxDefinitions | redcap/form.go:49-52 | the choice loop writes one definition per choice, `name___id`, in choice order: exactly the definitions of `CheckboxColumns` |
| Redcap.FieldDefinitions | redcap/form.go:48-60 | one field's definitions: one per checkbox choice, none for the unique key, otherwise its own |
| Redcap.RedcapProject.constructor | redcap/project.go:298-301 | a new project holds only the URL and the token, and is valid |
| Redcap.RedcapProject.ContainsForm | redcap/project.go:123-130 | true iff some form has the name; when forms are filed under their names, iff the name is a key |
| Redcap.RedcapProject.GetMetadata | redcap/project.go:132-162 | cached metadata is returned without fetching; otherwise the fetched list is cached and its first field becomes the unique key; errors change nothing |
| Redcap.RedcapProject.GetFieldLabels | redcap/project.go:164-176 | one label per metadata field, in order, also stored in FieldLabels |
| Redcap.RedcapProject.GetForms | redcap/project.go:178-196 | forms are rebuilt: one new form per form name, holding that form's fields in metadata order, keyed by the project's unique key |
| Redcap.RedcapProject.BuildForms | redcap/project.go:185-193 | the loop leaves one fresh valid form per form name, each holding that form's fields in metadata order |
| Redcap.RedcapProject.FiledFormsByName | redcap/project.go:185-195 | forms whose contents are `Filed(fields)` are valid and hold, per form name, that form's fields in order |
| Redcap.RedcapProject.FileField | redcap/project.go:186-192 | the loop body: the field joins the form of its name, which is created empty if new |
| Redcap.RedcapProject.FileFirstField | redcap/project.go:187-189 | a form name not seen before gets a new form holding just the field |
| Redcap.RedcapProject.FileNewForm | redcap/project.go:187-188 | a new, empty form of this project is filed under the name |
| Redcap.RedcapProject.AddToFiledForm | redcap/project.go:189-191 | the field joins its form; every other form is unchanged |
| Redcap.RedcapProject.OtherDialectWritesNothing | redcap/project.go:244-250 | for a dialect other than "postgres" the project's statements are "" |
| Redcap.RedcapProject.ToSQL | redcap/project.go:244-250 | the concatenation of every form's statement, in iteration order; "" when there are no forms or for another dialect |
| Redcap.RedcapProject.Initialize | redcap/project.go:252-259 | metadata fetched once, then labels listed and forms built from it; errors are passed on |
| Redcap.NewRedcapProject | redcap/project.go:297-308 | a valid project with the URL and token; when initializing, it succeeds iff the metadata can be fetched, and then holds the metadata, one label per field in order, and one form per form name holding its fields in order |

## Left out

- The HTTP requests and body reading (project.go:139-150 and 216-239) are
  not modelled. The response is a parameter. The metadata request's own
  form values and the records body that `ExportRecords` returns are not
  modelled.
- JSON decoding itself (field.go:39-43, project.go:152) is not modelled. A
  record is a `map<string, string>`. A value that is present but not a
  string, which fails the `.(string)` assertion in Go, is not
  distinguished from an absent key.
- `RedcapField.Value` is never set by the source. The model keeps it empty.
- Logging and printing (`log.Fatal` messages, `fmt.Printf` at form.go:68)
  are not modelled. Fatal errors become `Err` values.
- The events request and the arm fields are not modelled. Only whether
  `Events` is set matters to the core (form.go:43). The model keeps it as
  an `Option`.
- The older duplicates of the project functions (project.go:14-121 and
  261-295), the `cli/` commands and `doc.go` are not part of this model.
- Redcap.RedcapProject.ToSQL: Go's map iteration order is
  nondeterministic. The model takes the order as a parameter, which must
  list every form once.
- Redcap.RedcapForm.ToSQL: requires a project when the dialect is
  "postgres". A form without a project would dereference nil at form.go:43.
  The corrected `GetForms` always sets it.
- `addFieldToForm` stores the address of a copy of the field (form.go:30-31).
  The model stores the field value. Nothing in the core mutates a stored
  field, so no aliasing is lost.
- Redcap.RedcapProject.FormSet is ghost bookkeeping for frames and has no
  Go counterpart.
- GoStrings.Atoi: reads ids in the int64 range, as `strconv.Atoi` does
  where Go's `int` is 64 bits. On a 32-bit build it rejects ids outside the
  int32 range (field.go:33, 68), and the model does not capture that.

## Findings

| source | as written | input that shows it | evidently intended | confidence | as-written member | corrected member |
|---|---|---|---|---|---|---|
| redcap/project.go:187-189 | the new form is the literal `RedcapForm{Name: …}`: its field map is nil, its project nil and its unique key zero, so `addFieldToForm` writes into a nil map and panics | any non-empty metadata (the first field already panics) | a form with an empty field map, the project's unique key and the project itself, as the form's `ToSQL` needs (form.go:42-43) | not executed | ProjectMetadata.GetFormsAsWrittenPanics | Redcap.RedcapProject.GetForms |
