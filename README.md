# piper ingest path, modelled in Dafny

piper loads JSON-lines telemetry files written by a production pipeline into an event
store. This project models the ingest path and the small pieces around it, and proves
what each piece promises:

- **parser**: splits a file into its lines and classifies each line. A blank line is
  skipped. A line that decodes to a JSON object becomes a `ParsedLine`. Any other line
  becomes a `BadLine` with a reason.
- **envelope schema and validator**: decodes the parsed object field by field, in
  declaration order. The result is a typed `Envelope`, or the first failure as one of
  three errors: missing field, invalid field, or clock skew (more than one hour in the
  future).
- **row normaliser**: flattens an envelope into the 24-column `silver_events` row and
  lists the row's insert parameters.
- **discovery**: keeps the settled `*.jsonl` files (`mtime <= now - settle_seconds`) and
  orders them by `(mtime, path)`.
- **quarantine sink**: appends one JSON record per rejected line to a per-day,
  per-source-file log, creating the day directory on demand.
- **per-file loader** (`ingest_file`): connects the pieces above. It quarantines parse
  and validation failures, inserts the valid rows into a store keyed by `event_id`
  (insert-if-absent), and reports `total`, `accepted`, `duplicate` and `quarantined`.
- **manifest**: a table of ingested files keyed by path, with an exact-fingerprint
  lookup and an upsert.
- **run lock**: a PID lock file with acquire, release and a scoped form.
- **migration runner**: applies the `*.sql` files whose stem is not yet recorded, in name
  order, running the non-blank `;`-separated statements of each.
- **path derivation**: derives the output directories from `data_root` and creates them.
- **doctor thresholds**: the pass/warn/fail classification of the four health checks.

## How the model is built

- The modules follow the source files: `Parser`, `Envelope`, `Validate`, `Row`,
  `Discovery`, `Quarantine`, `Manifest`, `Lock`, `Ingest`, `SqlRunner`, `Paths` and
  `Doctor`.
- Four modules hold the Python and library behaviour the source relies on:
  - `Wrappers`: `Option` and `Result`.
  - `Text`: `str.strip`, `str(int)`, `int(str)`, `str.split`, `str.join`, zero padding.
  - `Json`: a JSON value type, `dict.get` and `json.dumps` with its separators.
  - `Fs`: paths as lists of components, plus a `FileSystem` class holding the created
    directories and the files, each file a list of lines.
- Code that changes state step by step is written as methods with loops, proved against
  specification functions. This covers:
  - the parser loop;
  - the two loops and the insert of `ingest_file`;
  - `executemany`;
  - the quarantine append;
  - `mkdir` of the output directories;
  - the discovery loop;
  - the migration loops.
- These entities are classes whose fields their methods update: the event store, the
  manifest table, the migration database, the lock file and the file system.
- The pure parts are functions over datatypes: the schema decode, the validator, the
  row, the doctor checks and the path derivation.
- Calls into libraries and the operating system are function-typed parameters with no
  fixed behaviour:
  - `json.loads` is `decode`;
  - pydantic's datetime parsing is `parseTime`;
  - JSON string quoting is `quote`;
  - `os.kill(pid, 0)` is `probe`.
- The clock, `date.today`, `os.getpid` and the quarantine stamp are plain parameters.
- Timestamps are integer microseconds and mtimes are integers.

`paths.quarantine_dir` already ends in `invalid_jsonl`, and `quarantine_line` appends
`invalid_jsonl` again, so a project's quarantine logs sit under
`<data_root>/quarantine/invalid_jsonl/invalid_jsonl/<date>/<name>`. The model keeps this
behaviour, and `Quarantine.ProjectQuarantineLogPath` states the resulting path.

## Model

| member | source | states |
|---|---|---|
| Parser.ParseJsonlFile | src/piper/parser.py:51-83 | the loop's two lists are exactly `GoodLines`/`BadLines`, the line-by-line classification of the input |
| Parser.ClassifyLine | src/piper/parser.py:55-81 | blank exactly when the stripped line is empty; a good line carries its number and the object its stripped text decodes to; a bad line carries its number and the stripped text |
| Parser.GoodLines | src/piper/parser.py:51-83 | never more good entries than lines |
| Parser.BadLines | src/piper/parser.py:51-83 | never more bad entries than lines |
| Parser.OutcomeKeepsNumber | src/piper/parser.py:54-81 | a line's entry, good or bad, carries the 1-based number of that line |
| Parser.GoodEntriesComeFromTheirLines | src/piper/parser.py:71-81 | every `good` entry names a line within the file whose stripped text decodes to an object, and holds that object |
| Parser.BadEntriesComeFromTheirLines | src/piper/parser.py:59-79 | every `bad` entry names a line within the file that failed to decode or decoded to a non-object |
| Parser.EveryLineHasAnEntry | src/piper/parser.py:54-81 | a line classified good (bad) has an entry with its number in `good` (`bad`): no line is lost |
| Parser.GoodLineNumbersIncrease | src/piper/parser.py:51-83 | `good` is in strictly increasing line-number order |
| Parser.BadLineNumbersIncrease | src/piper/parser.py:51-83 | `bad` is in strictly increasing line-number order |
| Parser.NonBlankStep | src/piper/parser.py:54-57 | adding a line adds its position to the non-blank positions exactly when its stripped text is non-empty |
| Parser.OneOutcomePerLine | src/piper/parser.py:56-81 | a non-blank line adds exactly one entry to one of the two lists; a blank line adds none |
| Parser.CountsNonBlankLines | src/piper/parser.py:54-81 | `len(good) + len(bad)` equals the number of non-blank lines |
| Parser.BlankLineIsSkipped | src/piper/parser.py:55-57 | a whitespace-only line is skipped: neither good nor bad |
| Parser.RejectionReasons | src/piper/parser.py:59-81 | a decode failure is bad with the stripped text and a reason starting `invalid JSON:`; a non-object is bad with `expected JSON object, got <type>`; an object is good with that object |
| Parser.EmptyInput | src/piper/parser.py:51-83 | no lines give two empty lists |
| Json.TypeNameDictIffObject | src/piper/parser.py:71-76 | `type(v).__name__` is `dict` exactly for JSON objects |
| Json.GetFindsFirstMember | src/piper/models/envelope.py:82-107 | a key lookup finds a value exactly when some member has the key, and it is the first such member's value |
| Json.GetPrepend | src/piper/quarantine.py:50-56 | a member put in front shadows later members of the same key and leaves other lookups alone |
| Json.GetAppendOther | src/piper/models/envelope.py:89 | appending a member under a different key does not change a lookup |
| Json.CompactEmptyObject | src/piper/models/row.py:157-159 | the compact serialisation of an empty mapping is `{}` |
| Json.GetSetItem | src/piper/validate.py:93-123 | after `obj[key] = value` the key looks up the new value and every other key looks up what it did before |
| Json.SetItemKeepsDistinctKeys | src/piper/validate.py:93-123 | assigning to a key keeps dict keys distinct, replacing in place when the key exists and adding one member otherwise |
| Json.Dumps | src/piper/quarantine.py:58 | an object renders between `{` and `}`, an array between `[` and `]`, `None` as `null` |
| Envelope.Under | src/piper/validate.py:148-149 | a nested model's failures keep their kinds and get the parent field prepended to their paths |
| Envelope.UnderContains | src/piper/validate.py:148-149 | each failure of a nested model appears among the re-rooted failures with the parent prepended to its path |
| Envelope.ErrorMessage | src/piper/validate.py:150 | every kind of failure has a non-empty message (pydantic's texts, including `int_parsing` and `int_from_float`), except an invalid datetime, which passes the parser's text through; a `model_type` message ends with the class name |
| Envelope.RequiredStr | src/piper/models/envelope.py:33 | succeeds exactly when the value is a JSON string, and then yields that string; otherwise one failure at the key, `missing` when absent and `string_type` when present |
| Envelope.OptionalStr | src/piper/models/envelope.py:35 | succeeds exactly when the value is absent, `null` or a string, yielding None for the first two and the string for the last; otherwise exactly one `string_type` failure at the key |
| Envelope.OptionalInt | src/piper/models/envelope.py:45 | succeeds exactly when the value is absent, `null`, an integer or a boolean, yielding None, the integer, or 1/0 for `true`/`false`; otherwise exactly one failure at the key: `int_parsing` for a string, `int_from_float` for a number with a fraction, `int_type` for any other shape |
| Envelope.RequiredAwareDateTime | src/piper/models/envelope.py:95 | a success saw a value that the datetime parser accepted with a UTC offset, and yields that datetime; conversely a present value that parses with a UTC offset is accepted as that datetime; a failure carries at least one error record |
| Envelope.RequiredStatus | src/piper/models/envelope.py:96 | decodes the status field; its own contract promises only that a failure carries at least one error record, and what it accepts or rejects is stated by the lemmas below |
| Envelope.DictOrEmpty | src/piper/models/envelope.py:104-105 | succeeds exactly when the value is absent or an object, yielding `{}` or that object's members; otherwise exactly one `dict_type` failure at the key |
| Envelope.DecodePipeline | src/piper/models/envelope.py:30-35 | succeeds exactly when `name` is a string and `dcc` absent, `null` or a string, and then carries them; each sub-field that does not fit is reported at its own name |
| Envelope.DecodeHost | src/piper/models/envelope.py:38-45 | succeeds exactly when `hostname` and `user` are strings, `os` and `os_release` optional strings and `pid` an optional integer, and then carries them; each sub-field that does not fit is reported at its own name |
| Envelope.DecodeSession | src/piper/models/envelope.py:48-52 | succeeds exactly when `session_id` is a string and `action_id` an optional string, and then carries them; each sub-field that does not fit is reported at its own name |
| Envelope.DecodeScope | src/piper/models/envelope.py:55-69 | succeeds exactly when each of the six sub-fields is absent, `null` or a string, and then carries them; each one that does not fit is reported at its own name |
| Envelope.DecodeErrorInfo | src/piper/models/envelope.py:72-79 | succeeds exactly when `code` and `message` are each absent, `null` or a string, and then carries them; each one that does not fit is reported at its own name |
| Envelope.RequiredModel | src/piper/models/envelope.py:99-101 | an absent field is `missing`; a non-object is `model_type` naming the class; an object succeeds exactly when its sub-decode does, with that value, and otherwise fails with the sub-decode's failures under the field's name |
| Envelope.ScopeOrDefault | src/piper/models/envelope.py:106 | absent gives the all-None scope; a non-object fails as `model_type` for `ScopeInfo`; an object yields the scope it carries, or its failures under `scope` |
| Envelope.OptionalErrorInfo | src/piper/models/envelope.py:107 | absent or `null` gives None; any other non-object fails as `model_type` for `ErrorInfo`; an object yields the error it carries, or its failures under `error` |
| Envelope.Position | src/piper/models/envelope.py:92-107 | each field has its place in the declaration order |
| Envelope.PerFieldErrors | src/piper/models/envelope.py:92-107 | one list of failures per field, in declaration order |
| Envelope.ConcatEmpty | src/piper/validate.py:148 | the collected failures are empty exactly when every field's list is empty |
| Envelope.ConcatContains | src/piper/validate.py:148 | every failure of a field appears among the collected failures |
| Envelope.ConcatStartsWithFirstNonEmpty | src/piper/validate.py:148 | the first collected failure is the first failure of the first field that fails |
| Envelope.FieldDecodesIffDecoderSucceeds | src/piper/models/envelope.py:92-107 | a field contributes no failure exactly when its own decoder succeeds |
| Envelope.NoErrorsIffEveryFieldDecodes | src/piper/models/envelope.py:92-107 | the decode collects no failure exactly when every field decodes |
| Envelope.ModelValidate | src/piper/validate.py:117 | `model_validate`: a failure carries at least one error record, so a first error exists (its meaning is stated by the lemmas below) |
| Envelope.Build | src/piper/models/envelope.py:92-107 | the envelope assembled from decoding fields carries the three identity strings as they stand in the object, has an aware timestamp, and takes the default scope and no error when those keys are absent |
| Envelope.KeyInjective | src/piper/models/envelope.py:92-107 | distinct fields have distinct keys |
| Envelope.FailingFieldFailsTheDecode | src/piper/models/envelope.py:92-107 | one failing field fails the whole decode, and each of its failures is reported |
| Envelope.FirstFailingFieldIsReportedFirst | src/piper/validate.py:148 | the first failure reported belongs to the first field, in declaration order, that fails |
| Envelope.MissingRequiredFieldFails | src/piper/models/envelope.py:92-101 | an absent required top-level field gives a `missing` failure at its name |
| Envelope.AbsentOptionalFieldNeverFails | src/piper/models/envelope.py:104-107 | an absent optional top-level field never fails |
| Envelope.MissingNestedFieldFails | src/piper/models/envelope.py:33-52 | an absent required sub-field gives a `missing` failure at the two-part path |
| Envelope.ValidatedEnvelopeCarriesRawFields | src/piper/models/envelope.py:92-96 | a successful decode saw every required field and carries the identity fields verbatim |
| Envelope.AbsentOptionalFieldsTakeDefaults | src/piper/models/envelope.py:104-107 | absent `payload`/`metrics` become empty maps, absent `scope` all-None, absent `error` None |
| Envelope.AbsentOptionalSubFieldsAreNone | src/piper/models/envelope.py:30-79 | every absent optional sub-field of the five nested models, including the six of `scope`, decodes to None |
| Envelope.UnknownStatusFails | src/piper/models/envelope.py:96 | a status outside the four literals fails as a literal error at `status` |
| Envelope.NaiveTimestampFails | src/piper/models/envelope.py:95 | a timestamp without a UTC offset fails as `timezone_aware` |
| Envelope.UnparsableTimestampFails | src/piper/models/envelope.py:95 | a timestamp the parser refuses fails as an invalid datetime |
| Envelope.WrongShapeFails | src/piper/models/envelope.py:92-107 | a present top-level value of the wrong JSON type fails that field with exactly one failure of its kind (`string_type`, `literal_error`, `model_type` for the class, `dict_type`) and fails the decode |
| Envelope.SubModelErrorsUnderParent | src/piper/models/envelope.py:99-107 | a nested object's failures are its model's failures under the parent's name |
| Envelope.BadSubFieldIsReported | src/piper/models/envelope.py:30-79 | a sub-field that does not fit is reported by its model at its own name, with the kind its type calls for |
| Envelope.BadHostFieldIsReported | src/piper/models/envelope.py:38-45 | the same for the five `host` sub-fields |
| Envelope.BadScopeFieldIsReported | src/piper/models/envelope.py:55-69 | the same for the six `scope` sub-fields, always `string_type` |
| Envelope.OnlyBadSubFieldIsReported | src/piper/models/envelope.py:30-79 | when only one sub-field does not fit, it is its model's only failure |
| Envelope.OnlyBadPairFieldIsReported | src/piper/models/envelope.py:30-79 | the same for the two-field models `pipeline`, `session` and `error` |
| Envelope.OnlyBadHostFieldIsReported | src/piper/models/envelope.py:38-45 | the same for `host` |
| Envelope.OnlyBadScopeFieldIsReported | src/piper/models/envelope.py:55-69 | the same for `scope` |
| Envelope.BadSubFieldFails | src/piper/models/envelope.py:30-107 | a sub-field that does not fit fails the decode, reported at `parent → key` |
| Envelope.ValidatedEnvelopeCarriesNestedFields | src/piper/models/envelope.py:99-101 | a valid event's `pipeline`, `host` and `session` were objects, and their values are carried unchanged |
| Envelope.ValidatedEnvelopeCarriesOptionalModels | src/piper/models/envelope.py:106-107 | a present `scope` was an object whose values are carried; `error` is None exactly when absent or `null`, and otherwise carries the object's values |
| Envelope.ValidatedEnvelopeCarriesMaps | src/piper/models/envelope.py:104-105 | `payload` and `metrics` are absent or exactly the objects carried |
| Envelope.FieldDecodeReadsOnlyItsKey | src/piper/models/envelope.py:89 | a field's decode depends on its own key only |
| Envelope.BuildReadsOnlyDeclaredKeys | src/piper/models/envelope.py:89 | the assembled envelope depends on the declared keys only |
| Envelope.DecodeReadsOnlyDeclaredKeys | src/piper/models/envelope.py:89 | two objects that agree on the twelve declared keys decode alike |
| Envelope.UnknownTopLevelKeyIgnored | src/piper/models/envelope.py:89 | an undeclared top-level key is dropped: the decode is unchanged |
| Envelope.UnknownNestedKeyIgnored | src/piper/models/envelope.py:31-76 | an undeclared key of a nested model is dropped as well |
| Envelope.EventTypeIsNotConstrained | src/piper/models/envelope.py:94 | assigning any string to `event_type` of a valid event keeps it valid, with that type and nothing else changed |
| Envelope.StatusTextDecodes | src/piper/models/envelope.py:96 | each status literal decodes to its status |
| Envelope.ErrorIsNotCrossCheckedWithStatus | src/piper/models/envelope.py:72-107 | `error` is not checked against `status`: assigning any status to a valid event keeps it valid and changes only the status |
| Envelope.BuildWithOtherEventType | src/piper/models/envelope.py:94 | two objects differing only in `event_type` build envelopes differing only there |
| Envelope.BuildWithOtherStatus | src/piper/models/envelope.py:96 | two objects differing only in `status` build envelopes differing only there |
| Validate.ConvertFieldError | src/piper/validate.py:142-154 | a `missing` failure becomes `MissingFieldError`, anything else `InvalidFieldError`, naming the joined path |
| Validate.Message | src/piper/validate.py:135-154 | a missing-field message starts `Required field missing: `, an invalid-field one starts `Invalid value for ` and ends with the failure's message, a clock-skew one starts `Event timestamp is ` |
| Validate.ValidateEnvelope | src/piper/validate.py:93-123 | a success is the decoded envelope with a timestamp within the tolerance; a clock-skew error comes only after a successful decode and exceeds the tolerance; any other error comes from a failed decode |
| Validate.CheckClockSkew | src/piper/validate.py:131-139 | rejected exactly when `ts > now + 1h`, with the amount ahead |
| Validate.DistinctListSetSize | src/piper/validate.py:30-56 | a list without repeats has as many elements as its set |
| Validate.KnownEventTypesCount | src/piper/validate.py:30-56 | `KNOWN_EVENT_TYPES` holds 18 types |
| Validate.ClockSkewBoundary | src/piper/validate.py:60 | exactly one hour ahead passes; one microsecond more fails |
| Validate.PastEventsNeverSkewed | src/piper/validate.py:133 | a timestamp at or before now is never rejected for skew |
| Validate.ValidateSucceedsIff | src/piper/validate.py:93-123 | validation succeeds exactly when the structure decodes and the timestamp is within the tolerance, and yields that envelope |
| Validate.SkewCheckedOnlyAfterStructure | src/piper/validate.py:116-121 | a clock-skew error happens exactly when the structure decodes but the time is too far ahead; a structural failure does not depend on `now` |
| Validate.FirstFailingFieldDecidesTheError | src/piper/validate.py:148-154 | the error reported comes from the first failure of the first failing field |
| Validate.MissingFieldReported | src/piper/validate.py:152-153 | an absent required field, with the fields before it valid, gives `MissingFieldError` naming it |
| Validate.MissingNestedFieldReported | src/piper/validate.py:149-153 | an absent required sub-field gives `MissingFieldError` naming `parent → key` |
| Validate.UnknownStatusReported | src/piper/validate.py:154 | an unknown status gives `InvalidFieldError` at `status` |
| Validate.NaiveTimestampReported | src/piper/validate.py:154 | a naive timestamp gives `InvalidFieldError` at `occurred_at_utc` |
| Validate.WrongTypedFieldIsInvalid | src/piper/validate.py:142-154 | a present top-level value of the wrong JSON type, with the fields before it valid, gives `InvalidFieldError` naming the field with its kind's message |
| Validate.WrongTypedSubFieldIsInvalid | src/piper/validate.py:142-154 | a sub-field of the wrong JSON type, the rest valid, gives `InvalidFieldError` naming `parent → key` with its kind's message |
| Validate.AnyEventTypeAccepted | src/piper/validate.py:93-123 | assigning any string to `event_type` changes neither the verdict nor anything but the type |
| Validate.ExtraFieldsAccepted | src/piper/validate.py:116-123 | an undeclared key changes nothing in validation |
| Row.AsParams | src/piper/models/row.py:123-154 | 24 values, the i-th being the row's value for the i-th column of the INSERT |
| Row.FromEnvelope | src/piper/models/row.py:77-117 | the row keeps the `event_id`, takes the given source file and line, and stores payload and metrics as JSON objects `{…}` |
| Row.FromEnvelopeRoundTrip | src/piper/models/row.py:77-117 | the envelope minus the serialised maps reads back from the row; payload/metrics are their compact JSON; source file and line pass through |
| Row.ErrorColumns | src/piper/models/row.py:111-112 | no error gives two NULL error columns; otherwise they copy the error's fields |
| Row.EmptyMapsStoredAsBraces | src/piper/models/row.py:113-114 | an empty payload or metrics map is stored as `{}` |
| Row.ConflictKeyIsFirstParam | src/piper/ingest.py:33-44 | the first bound parameter is the `event_id`, the conflict key |
| Fs.Child | src/piper/quarantine.py:47 | joining a name makes a path one component longer, extending the parent |
| Fs.Prefixes | src/piper/quarantine.py:48 | the directories `mkdir(parents=True)` creates: the path and each of its non-empty prefixes |
| Fs.FileSystem.MakeDirs | src/piper/quarantine.py:48 | the directory and its parents are added; files are unchanged |
| Fs.FileSystem.AppendLine | src/piper/quarantine.py:57-58 | the line is appended to that file, all others unchanged; needs the parent directory |
| Paths.FromSettings | src/piper/paths.py:41-53 | roots copied; each directory is `data_root` plus its fixed components, the quarantine one `quarantine/invalid_jsonl` |
| Paths.EnsureOutputDirs | src/piper/paths.py:55-68 | the created directories are those of the five output directories and their parents; files unchanged |
| Paths.CreatedByMembers | src/piper/paths.py:61-68 | a directory is created exactly when it is a prefix of one of the five |
| Paths.PrefixOfExtension | src/piper/paths.py:48-52 | a prefix of `base + tail` is a prefix of `base` or `base` extended by part of `tail` |
| Paths.CreatesOnlyOutputDirsAndTheirParents | src/piper/paths.py:61-68 | only the five directories, `data_root/quarantine` and prefixes of `data_root` are created |
| Paths.OutputDirsAreCreated | src/piper/paths.py:61-68 | each of the five directories exists afterwards |
| Paths.RawRootNotCreated | src/piper/paths.py:58-59 | `raw_root` is never created when neither root contains the other |
| Paths.EnsureOutputDirsIdempotent | src/piper/paths.py:68 | a second run adds nothing |
| Quarantine.DashedParts | src/piper/quarantine.py:47 | `Y-M-D` with parts of widths 4, 2, 2 splits back into those parts |
| Quarantine.DateTextShape | src/piper/quarantine.py:47 | the partition name is ten characters: zero-padded year, month, day with dashes |
| Quarantine.DayDir | src/piper/quarantine.py:47 | the day directory lies two levels below the quarantine directory |
| Quarantine.DateTextInjective | src/piper/quarantine.py:47 | different dates give different partition names |
| Quarantine.LogPath | src/piper/quarantine.py:46-57 | the log is `quarantine_dir/invalid_jsonl/<date>/<source name>` |
| Quarantine.RecordKeepsTheBadLine | src/piper/quarantine.py:50-56 | the record holds the stamp, the full source path, and the bad line's number, reason and raw text verbatim |
| Quarantine.RecordLine | src/piper/quarantine.py:50-58 | each record line is one JSON object, `{…}` |
| Quarantine.QuarantineLine | src/piper/quarantine.py:30-58 | the day directory is created and the record is appended as the last line of the log, all else unchanged |
| Quarantine.SeparateLogs | src/piper/quarantine.py:47-57 | different source names or different dates go to different logs |
| Quarantine.ProjectQuarantineLogPath | src/piper/paths.py:51 | with the project's quarantine directory the log path has `invalid_jsonl` twice |
| Discovery.PathLeTotal | src/piper/discovery.py:73 | the path order is total |
| Discovery.KeyLeTotal | src/piper/discovery.py:73 | the `(mtime, path)` order is total |
| Discovery.PathLeAntisymmetric | src/piper/discovery.py:73 | paths ordered both ways are equal |
| Discovery.KeyLeAntisymmetric | src/piper/discovery.py:73 | two files ordered both ways by `(mtime, path)` have the same mtime and path, so different files never tie |
| Discovery.Insert | src/piper/discovery.py:73 | inserting into a sorted list keeps it sorted and adds exactly that file |
| Discovery.SortByKey | src/piper/discovery.py:73 | sorted by `(mtime, path)` and a permutation of the input |
| Discovery.SettledStep | src/piper/discovery.py:66-71 | one more candidate adds its `FoundFile` exactly when it is settled |
| Discovery.DiscoverSettledFiles | src/piper/discovery.py:34-73 | empty when the root is not a directory; otherwise the settled candidates sorted by `(mtime, path)` |
| Discovery.SettledMembers | src/piper/discovery.py:66-71 | a file is collected exactly when some candidate is settled and it is that candidate's fingerprint |
| Discovery.DiscoveredIffSettled | src/piper/discovery.py:63-73 | the result is sorted and holds a file exactly when a regular candidate with `mtime <= now - settle` has that path, size and mtime |
| Discovery.SettleBoundaryInclusive | src/piper/discovery.py:70 | `mtime == cutoff` is settled, one second later is not |
| Discovery.SettledCount | src/piper/discovery.py:65-71 | never more files than candidates, and all of them when all are settled |
| Manifest.ManifestStore.constructor | src/piper/manifest.py:35-60 | a store over the given table |
| Manifest.ManifestStore.MarkIngested | src/piper/manifest.py:35-60 | the table becomes the upsert of the file's record by path |
| Manifest.IsAlreadyIngested | src/piper/manifest.py:19-32 | a file counts as ingested only when its path is recorded |
| Manifest.Upsert | src/piper/manifest.py:47-58 | no recorded path is lost, and at most one is added |
| Manifest.MarkedIsIngested | src/piper/manifest.py:19-32 | after marking, the file is already ingested |
| Manifest.ChangedFingerprintIsNew | src/piper/manifest.py:19-24 | the same path with another mtime or size is not ingested |
| Manifest.IngestedIffSameFingerprint | src/piper/manifest.py:25-32 | for the marked path, ingested exactly when mtime and size both match |
| Manifest.UpsertAddsAtMostOneRecord | src/piper/manifest.py:47-58 | the keys gain at most the file's path; marking a known path keeps the count |
| Manifest.UpsertReplacesRecord | src/piper/manifest.py:52-57 | the path's record gets the new mtime, size and counts |
| Manifest.OtherRecordsUnaffected | src/piper/manifest.py:47-58 | records and lookups for other paths are unchanged |
| Lock.OwnPidReadsBack | src/piper/lock.py:87-90 | the pid written reads back as that pid |
| Lock.ReadPid | src/piper/lock.py:87-92 | a missing file reads as no pid; a pid is read only from non-blank content |
| Lock.IsAlive | src/piper/lock.py:95-103 | a pid outside the C `int` range raises OverflowError; otherwise alive exactly when the signal probe succeeds or is refused for permission |
| Lock.GarbageReadsAsNoPid | src/piper/lock.py:87-92 | content that is not an integer reads as no pid |
| Lock.LockFile.constructor | src/piper/lock.py:45-47 | a lock file with the given content |
| Lock.RunLock.constructor | src/piper/lock.py:45-47 | the lock path is `state_dir/piper.lock`, with the caller's pid |
| Lock.RunLock.Acquire | src/piper/lock.py:49-70 | no file: created with own pid; a live holder (a refused signal counts as alive): `LockError` naming it, with its message, file unchanged; a recorded pid outside the C `int` range: OverflowError escapes, file unchanged; a dead holder or garbage: overwritten with own pid |
| Lock.LockErrorMessage | src/piper/lock.py:61-63 | the message starts with "piper is already running (PID " followed by the holder's pid in decimal |
| Lock.LockErrorMessageNamesHolder | src/piper/lock.py:61-63 | the pid shown in the message reads back as the holder's pid |
| Lock.RunLock.Release | src/piper/lock.py:72-78 | the file is deleted exactly when it records the caller's pid; a missing file stays missing |
| Lock.RunLock.Scoped | src/piper/lock.py:80-85 | not entered exactly when a live holder exists or the recorded pid overflows a C `int`, and then the file is unchanged; once entered, the lock is gone afterwards, whether the body returned or raised |
| Ingest.EventStore.constructor | src/piper/ingest.py:33-45 | a store holding the given rows |
| Ingest.EventStore.Count | src/piper/ingest.py:48-51 | the number of rows |
| Ingest.EventStore.ExecuteMany | src/piper/ingest.py:126-132 | the rows become the insert-if-absent of the batch, in order |
| Ingest.InsertRow | src/piper/ingest.py:44 | the ids gain the row's id; stored rows are unchanged; a new id stores this row |
| Ingest.InsertAll | src/piper/ingest.py:126-132 | no stored id is lost |
| Ingest.InsertAllStep | src/piper/ingest.py:44 | one more row is inserted exactly when its id is absent |
| Ingest.IdsStep | src/piper/ingest.py:44 | the ids of a batch grow by the last row's id |
| Ingest.InsertAllKeepsExisting | src/piper/ingest.py:44 | a row already stored is never changed |
| Ingest.InsertAllKeys | src/piper/ingest.py:126-132 | the stored ids are the old ids plus the batch's ids |
| Ingest.InsertAllFirstWins | src/piper/ingest.py:44 | within a batch the first row with a new id is the one stored |
| Ingest.InsertAllGrowth | src/piper/ingest.py:126-132 | the store grows by between zero and the batch size |
| Ingest.InsertAllOfPresentIds | src/piper/ingest.py:44 | a batch of known ids changes nothing |
| Ingest.InsertAllIdempotent | src/piper/ingest.py:44 | inserting a batch twice is inserting it once |
| Ingest.RecordLinesStep | src/piper/ingest.py:94-95 | one more entry adds its record as the last line |
| Ingest.RecordLinesConcat | src/piper/ingest.py:94-116 | the records of two batches are the first batch's records followed by the second's |
| Ingest.RecordLinesLength | src/piper/ingest.py:138 | one record line per quarantined entry |
| Ingest.AppendOneMore | src/piper/quarantine.py:57-58 | appending one more line after others is appending them all at once |
| Ingest.AppendTwice | src/piper/quarantine.py:57-58 | two appends to the same log are one append of both |
| Ingest.WrittenStep | src/piper/ingest.py:94-95 | one more quarantine write extends the records written so far |
| Ingest.QuarantineAll | src/piper/ingest.py:94-95 | each parse failure's record is appended to the file's log, in order |
| Ingest.ValidationStep | src/piper/ingest.py:101-123 | one more parsed line adds its row if valid, its rejection if not |
| Ingest.WrittenConcat | src/piper/ingest.py:94-116 | two batches of quarantine writes are one batch of both |
| Ingest.ValidateLine | src/piper/ingest.py:102-123 | a valid line gives its row; an invalid one appends its re-serialised record and counts one error |
| Ingest.ValidateAll | src/piper/ingest.py:97-123 | the rows of the valid lines in order, the number of failures, and their records appended |
| Ingest.UpsertRows | src/piper/ingest.py:126-132 | the store becomes the insert-if-absent of the rows; `accepted` is its growth, 0 with no rows |
| Ingest.IngestFile | src/piper/ingest.py:72-139 | store, quarantine logs and stats as the specification functions give them |
| Ingest.EveryParsedLineIsRowOrRejected | src/piper/ingest.py:101-123 | each parsed line is a row or a rejection, never both |
| Ingest.StatsAddUp | src/piper/ingest.py:134-139 | `total` is the number of non-blank lines and `accepted + duplicate + quarantined`; `accepted`, `duplicate` lie within `0..len(rows)` |
| Ingest.Stats | src/piper/ingest.py:134-139 | `accepted + duplicate` is the number of valid rows; `quarantined` is the number of quarantined lines |
| Ingest.ValidEventsAreStored | src/piper/ingest.py:117-128 | afterwards the ids are the old ones plus those of the valid lines |
| Ingest.ExistingRowsUnchanged | src/piper/ingest.py:44 | a stored row is unchanged by an ingest |
| Ingest.ReingestAcceptsNothing | src/piper/ingest.py:126-137 | ingesting the same file again leaves the store unchanged, `accepted` 0, every valid row a duplicate |
| Ingest.ValidRowsComeFromValidLines | src/piper/ingest.py:117-123 | each row is the flattened envelope of a valid line, tagged with its file and line |
| Ingest.RejectedLinesAreReserialised | src/piper/ingest.py:102-114 | a rejection holds the line number, the error text and the object re-serialised compactly |
| Ingest.NothingQuarantinedLeavesNoTrace | src/piper/ingest.py:94-116 | with nothing to quarantine, no directory and no log is touched |
| SqlRunner.NonBlankStep | src/piper/sql_runner.py:69-72 | one more piece adds its stripped text exactly when non-blank |
| SqlRunner.NonBlankPiecesAreStatements | src/piper/sql_runner.py:69-72 | every statement run is non-empty, stripped and free of `;` |
| SqlRunner.Statements | src/piper/sql_runner.py:67-72 | every statement run is non-empty, stripped and free of `;` |
| SqlRunner.NonBlankPiecesOfStatements | src/piper/sql_runner.py:70-71 | pieces that are already stripped statements are kept as they are |
| SqlRunner.StatementsRoundTrip | src/piper/sql_runner.py:67-72 | statements joined with `;`, with or without a final `;`, split back into the same statements |
| SqlRunner.InsertByName | src/piper/sql_runner.py:47 | inserting into a name-sorted list keeps it sorted and adds exactly that file |
| SqlRunner.SortByName | src/piper/sql_runner.py:47 | sorted by name and a permutation of the input |
| SqlRunner.Stem | src/piper/sql_runner.py:47 | the stem is the name with `.sql` removed, or the whole name when it is `.sql` itself or lacks the suffix |
| SqlRunner.Pending | src/piper/sql_runner.py:47 | sorted by name and a permutation of the unapplied files |
| SqlRunner.AllStatementsStep | src/piper/sql_runner.py:49-50 | one more file adds its statements at the end |
| SqlRunner.StemsStep | src/piper/sql_runner.py:51-53 | one more file adds its stem |
| SqlRunner.ProgressStep | src/piper/sql_runner.py:49-53 | applying one more pending file extends the progress made |
| SqlRunner.ConcatAssoc | src/piper/sql_runner.py:49-50 | statements executed in turn accumulate in order |
| SqlRunner.MigrationDb.constructor | src/piper/sql_runner.py:45-46 | a database with the given applied versions and nothing executed |
| SqlRunner.MigrationDb.ExecuteSqlFile | src/piper/sql_runner.py:67-72 | the non-blank stripped `;`-pieces are executed in order; versions unchanged |
| SqlRunner.MigrationDb.ApplyInOrder | src/piper/sql_runner.py:49-53 | each file's statements run in order and its stem is recorded |
| SqlRunner.MigrationDb.ApplyPendingMigrations | src/piper/sql_runner.py:28-55 | returns the number of pending files, records their stems and executes their statements in name order |
| SqlRunner.UnappliedMembers | src/piper/sql_runner.py:47 | a file is unapplied exactly when it is in the directory and its stem is not recorded |
| SqlRunner.PendingIffUnapplied | src/piper/sql_runner.py:47 | pending files are sorted by name and are exactly the unapplied ones |
| SqlRunner.AppliedAfterwardsCoversDirectory | src/piper/sql_runner.py:46-53 | afterwards the applied set is the old set plus every stem in the directory |
| SqlRunner.SecondRunAppliesNothing | src/piper/sql_runner.py:55 | a second run finds nothing pending |
| Doctor.CheckFreshness | src/piper/doctor.py:36-79 | no events or age over 96 h fails, over 48 h warns, else passes; problems carry a hint |
| Doctor.CheckVolume | src/piper/doctor.py:82-113 | at least 10 passes, 1-9 warns, 0 fails; problems carry a hint |
| Doctor.CheckInvalidRate | src/piper/doctor.py:116-160 | with `total = events + errors`: `100*errors <= 2*total` passes (no data included), up to `10*total` warns, else fails |
| Doctor.CheckClockSkew | src/piper/doctor.py:163-204 | any event over 7 days fails, else any over 1 day warns, else passes |
| Doctor.RunCheck | src/piper/doctor.py:211-216 | each registered name runs its own check: `freshness` on the event count and newest age, `volume` on the 7-day count, `invalid_rate` on the manifest sums, `clock_skew` on the two skew counts; the result carries that name |
| Doctor.RunChecks | src/piper/doctor.py:219-237 | no `only`: the four checks' own results, in registry order; a known `only`: exactly that check's result; an unknown one is an error |
| Doctor.EveryProblemHasAHint | src/piper/doctor.py:45-204 | every warn or fail result has a non-empty hint |
| Doctor.FreshnessWorsensWithAge | src/piper/doctor.py:61-79 | an older newest event never gives a better status |
| Doctor.VolumeImprovesWithEvents | src/piper/doctor.py:95-113 | more events never give a worse status |
| Doctor.InvalidRateWorsensWithErrors | src/piper/doctor.py:141-160 | more errors never give a better status |
| Doctor.InvalidRateBoundaries | src/piper/doctor.py:142-148 | 2% exactly passes, 3% warns, 10% exactly warns, 11% fails |
| Doctor.EmptyManifestPasses | src/piper/doctor.py:123-139 | no manifest rows, all-NULL sums or a zero total pass |
| Text.LStripShape | src/piper/parser.py:55 | `lstrip` drops the leading whitespace and nothing else |
| Text.RStripShape | src/piper/parser.py:55 | `rstrip` drops the trailing whitespace and nothing else |
| Text.StripIsTrimmedSlice | src/piper/parser.py:55 | `strip` keeps a contiguous slice with no whitespace at either end and cuts only whitespace |
| Text.StripEmptyIffBlank | src/piper/parser.py:56 | `strip` gives `""` exactly for whitespace-only text |
| Text.StripIdempotent | src/piper/sql_runner.py:70 | stripping twice is stripping once |
| Text.Strip | src/piper/parser.py:55 | stripping never lengthens the text |
| Text.NatToString | src/piper/lock.py:69 | decimal digits without a leading zero |
| Text.NatToStringValue | src/piper/lock.py:69 | the digits denote the number |
| Text.IntToString | src/piper/lock.py:69 | `str(n)` is non-empty and starts with `-` exactly for negative `n` |
| Text.ParseInt | src/piper/lock.py:90 | a number is read only from non-empty text that starts with a digit or a sign |
| Text.IntToStringRoundTrip | src/piper/lock.py:69-90 | `int(str(n)) == n` |
| Text.IntToStringStripped | src/piper/lock.py:90 | `str(n)` has no surrounding whitespace |
| Text.ZeroPad | src/piper/quarantine.py:47 | the digits right-aligned, left-filled with zeros to the width |
| Text.ZeroPadExactWidth | src/piper/quarantine.py:47 | a number below `10^width` pads to exactly `width` characters |
| Text.ZeroPadInjective | src/piper/quarantine.py:47 | different numbers pad differently |
| Text.StrLeTotal | src/piper/discovery.py:73 | the string order is total |
| Text.StrLeAntisymmetric | src/piper/discovery.py:73 | strings ordered both ways are equal |
| Text.Split | src/piper/sql_runner.py:69 | `split` yields at least one piece |
| Text.SplitPartsLackSeparator | src/piper/sql_runner.py:69 | no piece contains the separator |
| Text.SplitJoin | src/piper/sql_runner.py:69 | joining separator-free pieces and splitting gives the pieces back |
| Text.JoinSplit | src/piper/sql_runner.py:69 | splitting and joining gives the text back |

## Left out

- I/O and libraries: reading files, `json.loads`, `json.dumps` string quoting, ISO-8601 parsing, `os.kill`, `rglob` and `stat` are parameters or inputs. Their behaviour is not modelled.
- `Envelope.OptionalInt`: pydantic's lax coercion of `host.pid` from a numeric string (`"123"`) or an integral float (`123.0`) to an int is not modelled. The model rejects every string as `int_parsing` and every float as `int_from_float`, the kinds pydantic gives a non-numeric string and a fractional float. Booleans are accepted as 1 and 0, as pydantic does.
- `Parser.ParseJsonlFile` takes the file's lines already split. `str.splitlines()` also breaks lines at `\r`, `\x0b`, `\x0c`, `\x1c`, `\x1d`, `\x1e`, `\x85`, `\u2028` and `\u2029`, and that splitting is not modelled.
- Json: an object from `json.loads` is a Python dict, so its keys are distinct (`Json.DistinctKeys`). The model does not enforce this on the objects handed to it. `Json.Get` returns the first member with the key, and `Json.SetItem` replaces that member in place.
- Timestamps are integer microseconds, not `datetime` objects. mtimes are integers, not floats.
- `host.os_release` and `host.pid` are decoded but, as in the source, not copied into the row.
- `Doctor.CheckResult` omits the `message` texts, which format floats. The freshness age is in integer microseconds rather than float hours, and the invalid rate compares integers exactly instead of computing a float.
- `Doctor.RunChecks`: the unknown-name error text prints the name with `repr` quoting taken as plain single quotes.
- `Lock.RunLock.Acquire`: the `O_EXCL` atomicity and races between processes are not modelled, and neither are `OSError`s other than a missing file or a refused signal. The C `int` range assumes a 32-bit `pid_t`.
- `Lock.ReadPid`: `int()` here accepts an optional sign and ASCII digits only. Underscores and non-ASCII digits are not covered.
- `Fs.FileSystem.MakeDirs` does not model the `FileExistsError` raised when a path component is a regular file.
- `Quarantine.DateText` covers years 1 to 9999 only. `strftime("%Y")` below year 1000 is platform-dependent.
- `SqlRunner.MigrationDb.ApplyPendingMigrations` requires the `*.sql` names to have distinct stems. Two files in one directory can share a stem: `.sql` and `.sql.sql` both have the stem `.sql`. In the source the second `INSERT INTO schema_migrations` then fails on the primary key, and the requires leaves that failure out. `pending` is sorted by file name, which orders paths within one directory the same way.
- Ingest: one quarantine stamp and one `now` per file. The source reads the clock for each record and each validation.
- `Ingest.IngestFile` inserts the rows themselves. Their `as_params` rendering is modelled separately in `Row.AsParams`.
- The manifest's `ingested_at_utc` is a parameter (`now`).
- `Discovery`: paths are compared component by component. `FoundFile` carries the stat values handed in with each candidate.
- Not part of this model:
  - the cross-file command loop of `cli.py`;
  - settings, logging, catalog, Parquet export and warehouse connections;
  - the database engine.
