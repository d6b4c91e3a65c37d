# Databricks integration action, modelled in Dafny

A model of the SuperAnnotate "Databricks integration" action
(`databricks-integration/action/app.py`). The action is a single-shot ETL
step: it validates its trigger context, parses nine string arguments from the
event, takes the annotations of the requested items, projects each annotation
onto the requested component ids, writes the rows to a CSV file, stages the
file in a Databricks volume and, when `create_delta_table` is `"true"` in any
letter case, creates a timestamped table, bulk-loads the staged file into it
and removes the staged file. It closes the connection last.

Modules, one per component of the script:

- `Wrappers` (`wrappers.dfy`): `Option`, `Result`.
- `Text` (`text.dfy`): the Python string operations the script uses:
  `str.split(",")`, `str.strip()` (over exactly the characters
  `str.isspace()` accepts) and `str.lower()`.
- `Arguments` (`arguments.dfy`): `argument_parser`, `argument_str_to_list`,
  and the nine parses the handler performs in order (`ParseArguments`).
- `Validation` (`validation.dfy`): `validate_context` over a context that is
  a dictionary of JSON-like values or `None`, with Python truthiness.
- `Components` (`components.dfy`): `find_componets_values`. It is a method
  with the script's nested loop, proved against the specification function
  `ComponentValue`, which gives the first attribute name of the last matching
  instance, or `""`.
- `CsvFile` (`csv_file.dfy`): `write_csv_file` as the rows a
  `csv.DictWriter` would write. That is a header equal to the columns, then
  one row per annotation, with `""` (restval) for a column the projection
  does not produce. When a projected id is not a column, DictWriter's default
  `extrasaction='raise'` makes the first `writerow` fail.
- `Warehouse` (`warehouse.dfy`): the connection handle as a class that
  records the calls made on it. The four query builders are methods that
  each issue one statement on it. The volume path and table-name composition
  are functions.
- `Action` (`action.dfy`): `handler` as a method (`Handler`, then
  `RunPipeline`). It is proved equal to the specification function
  `HandlerRun`. That function returns a `Run`: the externally visible effects
  in order (fetch, CSV write, connect, then each call on the connection) and
  how the run ended.

The environment, the event, the context, the fetched annotations, the
temporary directory and the `strftime` timestamp are all parameters of
`Handler`.

## Model

| member | source | states |
|---|---|---|
| `Text.IsSpace` | databricks-integration/action/app.py:95 | the characters Python's `str.isspace()` accepts, which `str.strip()` removes |
| `Text.Split` | databricks-integration/action/app.py:94 | `split(",")` yields one more segment than there are commas, and no segment contains a comma |
| `Text.JoinSplit` | databricks-integration/action/app.py:94 | joining the segments with the separator gives back the input, so split keeps every character in order |
| `Text.SplitJoin` | databricks-integration/action/app.py:94 | splitting a join of comma-free segments gives back the segments |
| `Text.Strip` | databricks-integration/action/app.py:95 | `str.strip()`: the right strip of the left strip of the input |
| `Text.StripStart` | databricks-integration/action/app.py:95 | the result is a suffix of the input, everything dropped is whitespace, and the result does not start with whitespace |
| `Text.StripEnd` | databricks-integration/action/app.py:95 | the result is a prefix of the input, everything dropped is whitespace, and the result does not end with whitespace |
| `Text.StripTrimmed` | databricks-integration/action/app.py:95 | `strip()` leaves no whitespace at either end |
| `Text.StripShape` | databricks-integration/action/app.py:95 | the input is whitespace, then the stripped result, then whitespace |
| `Text.StripUnique` | databricks-integration/action/app.py:95 | for any input written as whitespace, a trimmed string, whitespace, `strip()` returns that trimmed string |
| `Text.StripIdempotent` | databricks-integration/action/app.py:95 | stripping twice is stripping once |
| `Text.Lower` | databricks-integration/action/app.py:185 | `lower()` keeps the length and maps each character to its lower case |
| `Arguments.CreateFlag` | databricks-integration/action/app.py:185 | `create_delta_table` counts as true exactly for the four-letter spellings of "true" in any letter case |
| `Validation.Truthy` | databricks-integration/action/app.py:52-62 | Python truthiness, the `not x` tests: None, False, 0, `""` and `[]` are false, everything else is true |
| `Validation.Get` | databricks-integration/action/app.py:55-60 | `context.get(key)`: the stored value, or None when the key is absent |
| `Arguments.Missing` | databricks-integration/action/app.py:87-88 | `not arg` on the looked-up argument: absent, or the empty string |
| `Arguments.ArgumentParser` | databricks-integration/action/app.py:86-91 | fails, naming the argument, exactly when the argument is absent or empty; otherwise returns the stored value unchanged |
| `Arguments.ArgumentStrToList` | databricks-integration/action/app.py:93-96 | the list has (number of commas) + 1 elements, element k is segment k stripped, and no element contains a comma or starts or ends with whitespace; `""` gives `[""]` |
| `Arguments.ArgumentListRoundTrip` | databricks-integration/action/app.py:93-96 | a comma-joined list of trimmed, comma-free names parses back to the same list |
| `Arguments.ParseArguments` | databricks-integration/action/app.py:177-185 | the nine arguments parse exactly when none is absent or empty; a failure names a missing argument; on success every field is the stored value, the two lists are split and stripped, and the flag is the lowered comparison with "true" |
| `Arguments.ParseArgumentsOkIffAllPresent` | databricks-integration/action/app.py:177-185 | parsing succeeds exactly when no argument in the parsing order is absent or empty |
| `Arguments.ParseArgumentsReportsFirstMissing` | databricks-integration/action/app.py:177-185 | the argument reported missing is the first missing one in the handler's parsing order |
| `Validation.ValidateContext` | databricks-integration/action/app.py:51-70 | succeeds exactly when the context is a non-empty dictionary whose `items`, `project_id` and `team_id` are truthy, and then returns exactly those three values; each of the three rejections is told apart |
| `Validation.ValidateContextRoundTrip` | databricks-integration/action/app.py:51-70 | a context holding just three truthy fields validates to exactly those fields |
| `Validation.ValidateContextIgnoresOtherKeys` | databricks-integration/action/app.py:55-61 | keys other than the three fields never change the outcome for a non-empty context |
| `Components.Instances` | databricks-integration/action/app.py:76 | `annotation.get("instances", [])`: the instances, or none when the key is absent |
| `Components.Matches` | databricks-integration/action/app.py:77-79 | the instance has an `element_path` whose first entry is the requested id |
| `Components.LastMatch` | databricks-integration/action/app.py:76-81 | scanning from the end, the first attribute name of the last instance that matches the id, or nothing |
| `Components.ComponentValue` | databricks-integration/action/app.py:76-83 | the value projected for one id: the last match's first attribute name, or `""` when nothing matches |
| `Components.Projection` | databricks-integration/action/app.py:72-84 | the dictionary for one annotation: every requested id, and no other key, mapped to its projected value |
| `Components.FindComponentValues` | databricks-integration/action/app.py:72-84 | the returned dictionary's keys are exactly the requested ids, and each value is the value the last-match specification gives |
| `Components.NoMatchIsEmpty` | databricks-integration/action/app.py:76-83 | an id that no instance matches has no match, so it is projected to `""`; this includes an annotation without instances |
| `Components.LastMatchWins` | databricks-integration/action/app.py:76-81 | when instance i matches and no later instance does, the value is instance i's first attribute name |
| `Components.LastMatchIsAMatch` | databricks-integration/action/app.py:76-81 | an id has a value other than the default exactly when some instance matches it, and that value is a matching instance's first attribute name |
| `Components.SingleMatch` | databricks-integration/action/app.py:76-81 | with exactly one matching instance, the value is that instance's first attribute name |
| `Components.ProjectionExample` | databricks-integration/action/app.py:72-84 | one instance under `compA` named `foo`, with ids `compA,compB`, projects to `{compA: "foo", compB: ""}` |
| `CsvFile.ExtraFields` | databricks-integration/action/app.py:120-124 | DictWriter's `extrasaction='raise'` test: the keys of a projected row that are not column names |
| `CsvFile.Row` | databricks-integration/action/app.py:120-124 | `writerow`'s row: one cell per column, holding the row's value for that column, or `""` (restval) when the row lacks it |
| `CsvFile.CsvTable` | databricks-integration/action/app.py:119-124 | the file's rows: the header row of column names, then the row of each annotation's projection, in order |
| `CsvFile.CsvTableLayout` | databricks-integration/action/app.py:118-124 | the CSV has one header row equal to the columns, then one row per annotation in input order; the cell under column c is the value projected for c, or `""` when c is not a requested id |
| `CsvFile.WriteCsvFile` | databricks-integration/action/app.py:118-124 | the write fails exactly when there is an annotation and some requested id is not a column; the file then holds only the header and the error names those ids; otherwise the file holds the full table |
| `Warehouse.VolumePath` | databricks-integration/action/app.py:129 | the staged path starts with `/Volumes/` and ends with `/superannotate/` followed by the file name |
| `Warehouse.QualifiedTable` | databricks-integration/action/app.py:135 | the qualified name ends with the table name |
| `Warehouse.Connection.constructor` | databricks-integration/action/app.py:98-108 | a new connection is open, keeps its host, HTTP path, token and staging root, and has made no call |
| `Warehouse.Connection.Execute` | databricks-integration/action/app.py:114-116 | executing appends exactly that statement to the calls made |
| `Warehouse.Connection.Close` | databricks-integration/action/app.py:110-112 | disconnecting closes the connection and records the close as its last call |
| `Warehouse.UploadToVolume` | databricks-integration/action/app.py:126-132 | issues one `PUT` of the local file into `/Volumes/{catalog}/{schema}/{volume}/superannotate/{file}` |
| `Warehouse.CreateTableIfAbsent` | databricks-integration/action/app.py:134-137 | issues one `CREATE TABLE IF NOT EXISTS` for `{catalog}.{schema}.{table}` |
| `Warehouse.VolumeToTable` | databricks-integration/action/app.py:139-148 | issues one `COPY INTO` of that qualified table from that volume path |
| `Warehouse.DeleteFromVolume` | databricks-integration/action/app.py:150-153 | issues one `REMOVE` of that volume path |
| `Action.HasTokens` | databricks-integration/action/app.py:162 | both `SA_TEAM_TOKEN` and `DB_ACCESS_TOKEN` are present in the environment |
| `Action.StagedPath` | databricks-integration/action/app.py:189-190 | the volume path of the run's CSV file, `/Volumes/{catalog}/{schema}/{volume}/superannotate/{db_table}_{ts}.csv`, used by put, copy and remove |
| `Action.TargetTable` | databricks-integration/action/app.py:189 | the run's timestamped table, `{catalog}.{schema}.{db_table}_{ts}`, used by create and copy |
| `Action.TableName` | databricks-integration/action/app.py:189 | the timestamped table name starts with `db_table` and is strictly longer, so it is never `db_table` itself |
| `Action.CsvFileName` | databricks-integration/action/app.py:189-190 | `{db_table}_{ts}.csv` |
| `Action.LocalCsvPath` | databricks-integration/action/app.py:191 | `{tempDir}/{db_table}_{ts}.csv` |
| `Action.PlannedCalls` | databricks-integration/action/app.py:199-207 | the calls on the connection: the put of the local file to the staged path; then, if the flag is true, create, copy into and remove, all on the timestamped table and the staged path; then the disconnect |
| `Action.HandlerRun` | databricks-integration/action/app.py:161-209 | the whole run: missing tokens raise with no effect; an invalid context returns with no effect; a missing argument raises with no effect; otherwise the pipeline run |
| `Action.PipelineRun` | databricks-integration/action/app.py:187-209 | after validation: the fetch, then the CSV write; if a projected id is not a column and there is an annotation, the header-only file and the raise; otherwise the full table, the connect, and the planned calls |
| `Action.Handler` | databricks-integration/action/app.py:161-209 | the handler's step-by-step run equals the specification run: missing tokens raise first, an invalid context returns with no effect, a missing argument raises before the fetch, then the pipeline runs |
| `Action.RunPipeline` | databricks-integration/action/app.py:187-209 | after validation the run fetches, writes the CSV, connects, issues its calls on one connection object, and disconnects |
| `Action.PlannedCallsOrder` | databricks-integration/action/app.py:199-207 | `PUT` comes first and the disconnect comes last and only there; `CREATE`, `COPY INTO` and `REMOVE` follow the put in that order iff the flag is true; otherwise nothing is issued in between |
| `Action.PlannedCallsShareNames` | databricks-integration/action/app.py:189-206 | put target, copy source and remove target are one volume path; create and copy name one timestamped table, which differs from `{catalog}.{schema}.{db_table}`; the file put is `{tempDir}/{db_table}_{ts}.csv` |
| `Action.NothingBeforeValidInput` | databricks-integration/action/app.py:162-188 | a run has any effect exactly when both tokens, a valid context and all nine arguments are present, and its first effect is then the fetch for the validated project and items |
| `Action.InvalidContextReturnsQuietly` | databricks-integration/action/app.py:172-175 | with the tokens present, an invalid context ends the run with no effect and no exception |
| `Action.CompletedRun` | databricks-integration/action/app.py:189-209 | with valid inputs the run completes exactly when the CSV write cannot raise; the completed run writes the CSV table, connects with the host, HTTP path, DB token and temporary directory, puts the file, disconnects last, and creates the table exactly when the flag lowers to "true" |

## Left out

- The annotation-platform client: creating `SAClient` and calling `get_annotations` (app.py:165, 188). The fetch is recorded as an effect, and the annotations it returns are a parameter.
- The Databricks SQL connector: connecting, cursors, `execute`/`fetchall` and closing (app.py:98-116). These are network I/O. Only the calls made on the handle are recorded. Failures of remote calls, and the connection left open when one raises mid-pipeline, are not modelled.
- The SQL text of the four statements. Each statement is recorded by the names it uses. The text around those names is not modelled: the `OVERWRITE` of the put, and the CSV format and `mergeSchema`/`header`/`multiLine` options of the copy.
- File output, CSV quoting and escaping, and line endings: the file is modelled as its rows.
- `tempfile.gettempdir()` and `datetime.now().strftime(...)`: both are parameters.
- Reading the environment: the presence of both token names is modelled, and the value of `DB_ACCESS_TOKEN` is passed to the connect (app.py:164, 196-197). The value of `SA_TEAM_TOKEN` is unused, because `SAClient` is not part of this model. Printing the tokens and all `print`/`sa_print` logging are left out.
- `Components.Attribute`: an attribute name is a string, so `str(value)` is the identity. Non-string names and their Python `str()` text are not modelled. A first attribute without a `"name"` key, which raises KeyError at app.py:80, cannot be represented: every `Attribute` has a name.
- `Components.WellFormedFor`: an empty `element_path` (IndexError) or a matching instance without attributes (KeyError/IndexError) is a precondition, not an exception. A missing `attributes` key and an empty list are the same here. A non-list `element_path` is not modelled. `Annotation(None)` stands for an annotation without an `"instances"` key. An `"instances": null` entry cannot be represented: `.get("instances", [])` returns None for it, and iterating raises TypeError at app.py:76.
- `Arguments.Event`: event arguments are strings, and only the empty string counts as a falsy value. `argument_parser` (app.py:88) also reports None, False, 0, [] and {} as a missing argument, and the model does not represent those values. A truthy value that is not a string does not fail in `argument_parser`. For `sa_component_ids` and `databricks_columns` it fails at `split` (app.py:177-178), and for `create_delta_table` at `.lower()` (app.py:185). The other six arguments (app.py:179-184) would go unchanged into the f-strings and `sql.connect`. So a JSON `false` for `create_delta_table`, the "boolean value" of app.py:26, raises "Missing argument", and a JSON `true` raises AttributeError. The model can express neither case.
- `Text.Lower`: only ASCII letters are lowered. Other characters are left unchanged, so non-ASCII case mappings are not modelled.
- `Validation.Value`: context values are null, booleans, integers, strings and lists. Floats and nested dictionaries are not modelled.
