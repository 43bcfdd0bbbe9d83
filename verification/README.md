# Patient-summary transformation handler, modelled in Dafny

This project models the storage-triggered handler in `dev/lambda_code/handler.py`.
The handler is invoked when an object is created in a bucket. It reads that
JSON document and keeps only `patient_id` and `patient_name` from each record.
It writes the resulting array to a target bucket under a key derived from the
source file name, then returns `200` with that key. The model keeps the three
pieces of real logic as pure functions:

- `TargetKeys` derives the target key. It takes the POSIX basename and applies
  Python's `str.replace('.json', '_summary.json')`, which replaces every
  non-overlapping occurrence scanning left to right. It then prefixes the result
  with `processed_summary/`.
- `Projection` maps the parsed document to two-field records. It follows
  Python exactly: `len()` is evaluated first, then the loop calls `.get` on
  each item that iteration yields.
- `Handler` is the handler's control flow, written as a function. Its inputs
  are the optional target bucket, the event, and a `Services` value of
  oracles: key unquoting, object read, JSON parsing and object write. It
  returns the outcome (a response or a raised exception) and the ordered list
  of storage calls it made.

`Base` holds `Option`, `Result` and the exceptions an invocation can end with.
`JsonValue` holds the value `json.loads` produces.

The key rule replaces every `.json` anywhere in the file name, not only a
trailing one. So `a.json.json` becomes `a_summary.json_summary.json` and
`data.jsonl` becomes `data_summary.jsonl`. A name that contains no `.json` is
kept as it is, with no `_summary` added. The example in the comment at
`dev/lambda_code/handler.py:82` writes under `processed/`, but the code on
line 85 writes under `processed_summary/`. The model follows the code.

## Model

| member | source | states |
|---|---|---|
| `TargetKeys.Basename` | dev/lambda_code/handler.py:84 | The basename has no '/'. It is a suffix of the path, and when it is shorter than the path it comes right after a '/'. So it is everything after the last '/'. |
| `TargetKeys.ReplaceAll` | dev/lambda_code/handler.py:85 | No contract of its own. It is `str.replace`; its properties are stated by `ReplaceAllKeepsSlashFree`, `ReplaceAllWithoutOccurrence` and `RestoreRename`. |
| `TargetKeys.ReplaceAllKeepsSlashFree` | dev/lambda_code/handler.py:85 | `str.replace` never adds a '/' unless the replacement has one. |
| `TargetKeys.ReplaceAllWithoutOccurrence` | dev/lambda_code/handler.py:85 | `str.replace` with a non-empty pattern that does not occur returns the string unchanged. |
| `TargetKeys.TargetKey` | dev/lambda_code/handler.py:84-85 | No contract of its own. Its properties are stated by `TargetKeyShape`, `TargetKeyInjective` and the `TargetKeyOf` example lemmas. |
| `TargetKeys.TargetKeyShape` | dev/lambda_code/handler.py:82-85 | The target key always starts with `processed_summary/`, and nothing after that prefix contains a '/'. A basename without `.json` gives exactly `processed_summary/` + basename. |
| `TargetKeys.TargetKeyOfName` | dev/lambda_code/handler.py:84-85 | The target key of `dir/name` is the prefix followed by the renamed `name`. |
| `TargetKeys.RestoreRename` | dev/lambda_code/handler.py:85 | Replacing every `_summary.json` back by `.json` undoes the renaming, for every file name. |
| `TargetKeys.SourceNameOfTargetKey` | dev/lambda_code/handler.py:84-85 | The target key determines the basename it was derived from. |
| `TargetKeys.TargetKeyInjective` | dev/lambda_code/handler.py:84-85 | Two source keys get the same target key if and only if they have the same basename. |
| `TargetKeys.BasenameAfterSlash` | dev/lambda_code/handler.py:84 | The basename of `dir/name` is `name` when `name` has no '/'. |
| `TargetKeys.RenameCopies` | dev/lambda_code/handler.py:85 | A leading part of the name without '.' is copied unchanged by the replacement. |
| `TargetKeys.RenameOfJson` | dev/lambda_code/handler.py:85 | A leading `.json` becomes `_summary.json`, and the replacement continues after it. |
| `TargetKeys.TargetKeyOfJsonFile` | dev/lambda_code/handler.py:84-85 | `<dir>/<stem>.json` maps to `processed_summary/<stem>_summary.json`, for every stem without '/' that holds no `.json` of its own (`data.v2.json` included). For `input/data.json` this gives `processed_summary/data_summary.json`. |
| `TargetKeys.TargetKeyOfDoubleJson` | dev/lambda_code/handler.py:85 | `<stem>.json.json` maps to `processed_summary/<stem>_summary.json_summary.json`: every occurrence is replaced. This holds for every stem without '/' that holds no `.json` of its own. |
| `TargetKeys.TargetKeyOfInnerJson` | dev/lambda_code/handler.py:85 | `<stem>.json<rest>` maps to `processed_summary/<stem>_summary.json<rest>`, so a `.json` inside the name is replaced too (`data.jsonl` becomes `data_summary.jsonl`). This holds whenever neither the stem nor the rest has a '/' or a `.json` of its own. |
| `TargetKeys.TargetKeyOfOtherFile` | dev/lambda_code/handler.py:84-85 | A name without `.json` maps to `processed_summary/` + name, with no `_summary` added. |
| `TargetKeys.TargetKeyOfFolder` | dev/lambda_code/handler.py:84-85 | A key ending in '/' has an empty basename, so its target key is the bare prefix. |
| `Projection.ProjectItem` | dev/lambda_code/handler.py:72-75 | A dict item projects to an object with exactly the keys `patient_id` and `patient_name`. Each value is the item's value for that key, or null when the key is absent. Any other item raises AttributeError naming its type. |
| `Projection.ProjectItems` | dev/lambda_code/handler.py:68-76 | The loop succeeds if and only if every element is a dict. The output then has the same length, and element i is the projection of input element i. Otherwise it raises the AttributeError of the first element that is not a dict. |
| `Projection.Project` | dev/lambda_code/handler.py:65-76 | Projection succeeds exactly for a list of dicts, an empty string or an empty dict; the last two give no records. Null, booleans and numbers raise TypeError from `len`. A non-empty string or dict raises AttributeError for `str`. A list holding a non-dict raises the AttributeError of its first non-dict element. |
| `Projection.ReprojectEncoded` | dev/lambda_code/handler.py:88-97 | Projecting a written array of summaries gives the same summaries back. |
| `Projection.ProjectIdempotent` | dev/lambda_code/handler.py:68-76 | Projecting a projection changes nothing. |
| `Projection.EncodeAll` | dev/lambda_code/handler.py:88 | The written array has one element per summary, in order, and element i is the two-key object of summary i. |
| `Handler.Configured` | dev/lambda_code/handler.py:32 | No contract of its own. Its role is stated by `Handle`: the configuration error is raised exactly when it fails. |
| `Handler.HasRecords` | dev/lambda_code/handler.py:38 | No contract of its own. Its role is stated by `Handle`: the 400 response is returned exactly when it fails on a configured handler. |
| `Handler.Locate` | dev/lambda_code/handler.py:42-44 | The first record locates the source if and only if it has a bucket name and an object key. The key used is the decoded one. Otherwise KeyError is raised, for the bucket name first and then for the object key. |
| `Handler.Transform` | dev/lambda_code/handler.py:52-76 | A failed read is the result unchanged, and so is a failed parse after a successful read. When the read and the parse succeed, the result is exactly the projection of the parsed document, success or failure. |
| `Handler.Handle` | dev/lambda_code/handler.py:23-112 | Missing or empty target: a configuration error and no storage call. No records: exactly 400 "No records" and no storage call. The handler reads at most once, at the first record's decoded location, and then writes at most once. A write holds the full projection of what was read, at the derived key in the target bucket. A successful transformation is always written. A 200 reports the written key and needs a successful write. Conversely, when locating, reading, parsing, projecting and writing all succeed, the response is 200 reporting the derived key. |
| `Handler.Process` | dev/lambda_code/handler.py:42-105 | No contract of its own. It is the `try` body after the checks, and `Handle`, which returns it, states its behaviour. |
| `Handler.FailuresReraised` | dev/lambda_code/handler.py:52-112 | An exception raised while locating, reading, parsing or projecting ends the invocation unchanged, and nothing is written. |
| `Handler.MissingSourceRaises` | dev/lambda_code/handler.py:52-59 | A missing source object raises NoSuchKey after the single read. |
| `Handler.MalformedSourceRaises` | dev/lambda_code/handler.py:52-62 | Source text that is not JSON raises the decode error after the single read. |
| `Handler.WriteFailureRaises` | dev/lambda_code/handler.py:92-112 | A failed write raises its exception unchanged, after the read and the write attempt. |
| `Handler.OnlyFirstRecordRead` | dev/lambda_code/handler.py:42-44 | Records after the first do not affect the invocation. |
| `Handler.WrittenContentReadsBack` | dev/lambda_code/handler.py:88-97 | When the transformation succeeds, the invocation writes once, and projecting the written array gives the records computed from the source. |
| `Handler.WritesCollideOnlyOnSameName` | dev/lambda_code/handler.py:84-97 | Two invocations that write use the same target key if and only if their decoded source keys have the same file name. |

## Left out

- Logging (`logger` setup and every `logger.*` call) only has side effects and has nothing to verify.
- The `boto3` client is not modelled as network I/O. Reads and writes are the oracles `getObject` and `putObject`, and each call is recorded as an effect.
- The `TARGET_BUCKET_NAME` environment lookup at import time is not modelled. The value is passed in as `Option<string>`.
- `urllib.parse.unquote_plus` and the UTF-8 decoding of the body are opaque. Unquoting is the `unquote` oracle. A decoding failure is one of the exceptions `getObject` may answer with.
- `json.loads` is the `loads` oracle. The text `json.dumps(..., indent=2)` produces, for the written object and for the 200 body, is not modelled. The write records the JSON value and the body records the message and the key.
- The `context` argument is unused by the handler.
- Python floats are modelled as exact reals; floating-point rounding plays no part in the projection, which copies values.
- Some values `json.loads` accepts by default cannot be written as a `Json` value. The floats `NaN`, `Infinity` and `-Infinity` are not reals. A string holding a lone surrogate, such as the one the escape `\ud800` decodes to, is not a Dafny `string`. The handler would copy such values unchanged; documents that contain them are outside the model.
- A missing `s3`, `bucket` or `object` level of a notification record is folded into a missing bucket name or object key (a KeyError either way). A `Records` value that is truthy but not a list is outside the model.
- Whether a write that raised left anything in the target bucket is outside the model. The attempt is recorded as an effect.
- `Handler.WritesCollideOnlyOnSameName` is about one fixed target bucket; the race between concurrent invocations on one key (last writer wins) is outside the model.
