# inflaWatch utilities, modelled in Dafny

This models `utilities_module.py` from the inflaWatch price tracker. The scraper
stores product data as JSON files. Each file maps a product id to a record of
fields such as `sku`, `price` and `date`. The utilities do three jobs:

- **`TerminalPrint`** writes status messages to the console. It can put a
  `[dd:mm:YYYY-HH:MM:SS]` timestamp in front of a message. It can also
  overwrite the current line ("flush"). After the first flush, every later
  line message starts with a newline. Module `TerminalPrinter`, file
  `terminal_printer.dfy`.
- **`RUtility.to_R_json_parser` / `convert_time_to_posix`** turn a dataset
  into the list of its records and drop the ids. When asked, they also cut
  each record's `date` at its first `.`, which removes the sub-second part.
  The truncation changes the caller's record objects in place. Module
  `DataReformat`, file `data_reformat.dfy`. The records are a `Product`
  class with a mutable `fields` field.
- **`RUtility.get_data_vars` / `add_NAs`** give the files of a folder a
  common set of variables. The union lists the variables of each file's
  first record, in listing order, first occurrence first. `.DS_Store` is
  skipped. Each file is then rewritten: every variable that its first
  record lacks is set to `null` in every record. Module `SchemaBackfill`,
  file `schema_backfill.dfy`.

Module `JsonData` (`json_data.dfy`) models the JSON values and Python
dictionaries the utilities work on:

- A dictionary is an insertion-ordered key list plus a map.
  - `Set` is `d[k] = v`: an existing key keeps its place, and a new key
    goes at the end.
- `Result` carries either a value or the Python exception that aborted the
  computation:
  - `KeyError` for `d['date']` on a record without `date`;
  - `AttributeError` for `split` on a `date` that is not a string;
  - `StopIteration` for `next(iter(data))` on a file without records.

Each loop of the source is a method proved against a specification function:

| method | specification |
|---|---|
| `TerminalPrint.Print` | `Render`, `Transcript` |
| `Flatten` | `InOrder` |
| `ConvertTimeToPosix` | `TruncateDate`, `FirstFailure`, `Progress` |
| `ToRJsonParser` | `Snapshot`, `TruncateDate`, `FirstFailure` |
| `GetDataVars` | `DataVars` |
| `BackfillRecord` | `Backfill` |
| `BackfillFile` | `BackfillDocument` |
| `AddNAs` | `AddNAsResult` |

The properties of those functions are lemmas.

## Model

| member | source | states |
|---|---|---|
| JsonData.Empty | utilities_module.py:130-134 | `{}` is a well-formed dict with no keys. |
| JsonData.Set | utilities_module.py:134-138 | `d[k] = v` maps `k` to `v` and leaves every other key as it was. An existing key keeps its position in iteration order; a new key is appended. The dictionary stays well-formed. |
| JsonData.PrefixStep | utilities_module.py:135-136 | Inserting the next item of a dict into the partial copy gives the copy of one more item. |
| JsonData.PrefixAll | utilities_module.py:135-136 | Copying every item of a dict in iteration order rebuilds the same dict, with the same keys in the same order. |
| TerminalPrinter.FormatTime | utilities_module.py:31-33 | The timestamp is the clock text inside `[` and `]`, and is two characters longer than it. |
| TerminalPrinter.Message | utilities_module.py:15-18 | With `show_time`, the message is the timestamp, a space, then the text. Without it, the message is the text alone. |
| TerminalPrinter.Render | utilities_module.py:20-28 | A flushed message is `\r` plus the message, with no newline. A line message is the message plus a newline. After an earlier flush, it also starts with a newline. |
| TerminalPrinter.HasFlush | utilities_module.py:26-28 | Definition, no contract: `was_refreshed` as a function of the calls so far, true exactly when one of them flushed. |
| TerminalPrinter.Transcript | utilities_module.py:13-28 | What a fresh printer writes for a sequence of calls, one output per call. Each call is rendered under the flag of the calls before it. |
| TerminalPrinter.HasFlushSnoc | utilities_module.py:26-28 | After one more call, the printer is refreshed exactly when it already was or when this call flushes. |
| TerminalPrinter.TranscriptSnoc | utilities_module.py:13-28 | One more call appends exactly one rendering to the session's output. That rendering uses the refresh flag of the calls before it. |
| TerminalPrinter.TranscriptAt | utilities_module.py:20-28 | In any session, the i-th output is rendered with the refresh flag set exactly when some earlier call flushed. So a line message starts with a newline exactly after a flush. |
| TerminalPrinter.TerminalPrint.constructor | utilities_module.py:8-10 | A new printer is not refreshed and has no history. |
| TerminalPrinter.TerminalPrint.Print | utilities_module.py:13-28 | Writes the rendering of the call under the current flag. It appends the call and its output to the history. The flag becomes set when the call flushes and is never cleared. The flag always equals "some call so far flushed". |
| DataReformat.Product.constructor | utilities_module.py:52 | A record object holds the given fields. The same object can be stored in the dataset and in the flattened list, so an update through one is seen through the other. |
| DataReformat.InOrder | utilities_module.py:51-52 | The records of a dataset, one per id, in dictionary order. |
| DataReformat.Flatten | utilities_module.py:50-52 | The list holds, for each id in dictionary order, the record object stored under it. It holds exactly the dataset's record objects. |
| DataReformat.BeforeFirstDot | utilities_module.py:100 | `s.split(".")[0]` is a prefix of `s` without `.`. When it is shorter than `s`, the next character is a `.`. |
| DataReformat.BeforeFirstDotUnique | utilities_module.py:100 | These three properties determine `s.split(".")[0]` uniquely. |
| DataReformat.BeforeFirstDotFacts | utilities_module.py:100 | A string without `.` is kept whole. Truncating twice is the same as truncating once. |
| DataReformat.TruncateDate | utilities_module.py:100 | A record without `date` raises KeyError. A non-string `date` raises AttributeError. A string `date` is cut before its first `.` and every other field keeps its value and position. |
| DataReformat.TruncateDateIdempotent | utilities_module.py:100 | Truncating an already truncated record changes nothing. |
| DataReformat.FirstFailure | utilities_module.py:99-100 | The position of the first record the truncation raises on. Every record before it truncates successfully. |
| DataReformat.ProgressNext | utilities_module.py:99-100 | The record visited next truncates as its original contents did, even when the same object was visited before. If it raises, it is the first failure. |
| DataReformat.ProgressStep | utilities_module.py:99-100 | Storing the truncated record in the visited object extends the loop's progress by one record. |
| DataReformat.ProgressDone | utilities_module.py:99-102 | After the whole list, every object holds its truncated original contents. |
| DataReformat.ConvertTimeToPosix | utilities_module.py:97-102 | Truncates each record's `date` in place, in list order. It raises exactly when some record fails, and then raises that record's exception. Records before the failure stay truncated and later ones are untouched. A record object listed twice ends as if truncated once. |
| DataReformat.ToRJsonParser | utilities_module.py:41-56 | Without `convert_time`, the result is the records in dictionary order and nothing changes. With it, the result is each record truncated, or the first record's exception. The caller's record objects are changed the same way. |
| SchemaBackfill.FirstRecord | utilities_module.py:116 | `data[next(iter(data))]` is the record under the file's first id, and is well-formed. |
| SchemaBackfill.NoEmptyFile | utilities_module.py:108-116 | Definition, no contract: every file other than `.DS_Store` has a record, which is the condition under which `next(iter(data))` at line 116 does not raise StopIteration. |
| SchemaBackfill.FirstKeys | utilities_module.py:108-116 | Definition, no contract: the keys of each non-skipped file's first record, file after file in listing order. Its properties are `FirstKeysCover` and `FirstKeysFrom`. |
| SchemaBackfill.FirstKeysCover | utilities_module.py:108-118 | Every variable of a non-skipped file's first record is collected. |
| SchemaBackfill.FirstKeysFrom | utilities_module.py:108-118 | Every collected variable comes from the first record of some non-skipped file. |
| SchemaBackfill.FirstOccurrences | utilities_module.py:117-118 | The union has no duplicates and holds exactly the variables met. |
| SchemaBackfill.FirstOccurrencesOrder | utilities_module.py:117-118 | The union lists its variables in the order of their first occurrence. |
| SchemaBackfill.FirstOccurrencesSnoc | utilities_module.py:117-118 | Meeting one more variable appends it to the union exactly when it is new. |
| SchemaBackfill.DataVars | utilities_module.py:105-119 | The result of `get_data_vars`: StopIteration exactly when a non-skipped file has no records. Otherwise it is the union without duplicates, holding exactly the first-record variables of the non-skipped files. |
| SchemaBackfill.FolderSnoc | utilities_module.py:108-116 | One more file in the listing adds its first record's variables, unless it is skipped. The folder has a file without records exactly when an earlier file or this one has none. |
| SchemaBackfill.GetDataVars | utilities_module.py:105-119 | Returns the union of the first-record variables of the non-skipped files, in first-occurrence order and without duplicates. It raises StopIteration exactly when such a file has no records. |
| SchemaBackfill.MissingVars | utilities_module.py:131 | The missing variables are exactly the union's variables that the first record lacks. They have no duplicates when the union has none. |
| SchemaBackfill.MissingVarsOrder | utilities_module.py:131 | The missing variables keep the union's order: an earlier missing variable occurs earlier in the union. |
| SchemaBackfill.Backfill | utilities_module.py:133-138 | A backfilled record has its own fields plus the missing variables. A missing variable is null; every other field keeps its value, and the original fields keep their order. |
| SchemaBackfill.BackfillKeyOrder | utilities_module.py:133-138 | A backfilled record's fields, in order, are its own fields in their order, then the missing variables it lacked, in the order they are set. |
| SchemaBackfill.BackfillRecord | utilities_module.py:134-138 | Copying the fields into a new dict and then setting each missing variable to null gives the backfilled record. |
| SchemaBackfill.BackfillDocument | utilities_module.py:128-138 | The rewritten file has the same ids in the same order, and every record is well-formed. |
| SchemaBackfill.BackfillDocumentAt | utilities_module.py:131-138 | The record under each id is that id's record backfilled with the variables the file's first record lacks. |
| SchemaBackfill.BackfilledFieldOrder | utilities_module.py:131-138 | In the rewritten file, each record's fields are its own fields in order, then the variables it lacked among those missing from the first record, in union order. |
| SchemaBackfill.BackfillFile | utilities_module.py:128-138 | The new file contents built id by id are the backfilled document. |
| SchemaBackfill.BackfillEntry | utilities_module.py:125-143 | A skipped file is left as it was. Any other file is rewritten under the same name with the same ids. |
| SchemaBackfill.BackfillAll | utilities_module.py:125-143 | The folder after rewriting has the same files, each one rewritten or skipped as above. |
| SchemaBackfill.AddNAsResult | utilities_module.py:121-143 | The result of `add_NAs`: StopIteration exactly when a non-skipped file has no records. Otherwise it is a folder of the same length, well-formed, in which every file keeps its name and its record ids in order. |
| SchemaBackfill.AddNAs | utilities_module.py:121-143 | Computes the union, then rewrites every non-skipped file in listing order. It raises StopIteration exactly when the union does, and nothing is written then. |
| SchemaBackfill.BackfilledKeys | utilities_module.py:131-138 | A first record backfilled with the variables it lacks has exactly the union's variables. |
| SchemaBackfill.BackfilledFirstRecord | utilities_module.py:131-138 | The first record of a rewritten file has exactly the union's variables. |
| SchemaBackfill.BackfilledUniformFile | utilities_module.py:131-138 | In a file whose records all have the first record's variables, every rewritten record has exactly the union's variables. |
| SchemaBackfill.AddNAsUniform | utilities_module.py:121-143 | After `add_NAs`, every file keeps its name and its ids in order, and skipped files are unchanged. The first record of every other file has exactly the union's variables. So has every record of a file whose records shared their variables. |
| SchemaBackfill.BackfillExactly | utilities_module.py:131-138 | A record backfilled with the union variables that the first record lacks ends with exactly the union's variables iff its own variables include the first record's and lie within the union. |
| SchemaBackfill.BackfilledExactly | utilities_module.py:131-138 | In a rewritten file, the record under an id has exactly the union's variables iff its original variables include the first record's and lie within the union. |
| SchemaBackfill.FirstRecordDecides | utilities_module.py:131-138 | A variable the first record lacks becomes null in every record, even one that had a value for it. For a variable the first record has, each record keeps its own value, or keeps lacking it. |

The code reads each file's variables off its first record alone, both for
the union (`get_data_vars`, commented at lines 114-115) and for the missing
variables of the whole file (line 131). `FirstRecordDecides` states the
consequence for each variable. `BackfilledExactly` states it for each
record: a record ends with exactly the union's variables iff its own
variables include the first record's and lie within the union. This holds
for every record of a file whose records share the first record's
variables (`AddNAsUniform`). A record that fails this condition ends with
a different set of variables. Either it lacks a variable of the first
record, and keeps lacking it, or it holds a variable outside the union,
and keeps that. Separately, every record of a file, including one that ends with
exactly the union's variables, has its value replaced by null for each
variable the first record lacks (`FirstRecordDecides`). The model follows
the code.

## Left out

- File and directory I/O is left out. The model starts from the listing and
  the parsed contents of a folder, and returns the contents it would write:
  - `os.listdir` and `open` in `get_data_vars` and `add_NAs`;
  - `json.loads` / `json.dumps`;
  - the `f.seek`, `f.truncate` and `f.write` overwrite.
- The listing is read twice in the source, by `get_data_vars` and by
  `add_NAs`. The model assumes both calls return the same files in the same
  order.
- `AddNAs` writes nothing when the union raises, and writes every file
  otherwise. The model does not capture a crash half-way through the
  writes, because it has no file system.
- `RUtility.save_to_file` is not part of this model. It is only directory
  creation and file writing.
- `RUtility.convert_folder` is not part of this model. Its call of
  `to_R_json_parser` at line 91 passes `convert_time` positionally as
  `path` and `path=` again by keyword, so that call always raises TypeError.
  The function only returns normally when the folder has no file other
  than `.DS_Store`, and then does nothing.
- `RUtility.__init__` and the `__main__` block hold no logic.
- The `path=True` branch of `to_R_json_parser` (reading the dataset from a
  file) is left out. `ToRJsonParser` starts from the parsed dictionary.
- DataReformat.ToRJsonParser: returns the list of records rather than its
  JSON text, since `json.dumps` is left out.
- TerminalPrinter.FormatTime: takes the clock reading, already formatted by
  `strftime`, as a parameter, since the wall clock is outside the model.
- TerminalPrinter.TerminalPrint.Print: returns the text the call writes to
  standard output instead of printing it.
- The debugging `print` calls of `add_NAs` are left out. They only write to
  the console.
- JSON numbers are modelled as integers, and floating point is left out.
  No operation of the module looks at a number's value.
- Top-level JSON values that are not objects are left out. So are records
  that are not objects. Every dataset and every file is a dictionary of
  records.
- Values nested inside a record's fields are immutable values in the model.
  Only whole record objects (`Product`) can be shared. An in-memory caller
  of `to_R_json_parser` could store a record object also inside another
  record's field. Truncating that record in place would then also show
  through the other record's field. The model does not capture this.
  Parsed JSON never shares objects.
