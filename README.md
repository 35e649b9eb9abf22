# Excalibur API call logger — a Dafny model

`excalibur_api_monitoring/excalibur_logger.py` is a fire-and-forget logger
for calls to the Excalibur API. Callers build a *request* or *response*
record with `log_excalibur_request` / `log_excalibur_response` and hand it to
a process-wide `ExcaliburAPILogger` (`get_api_logger`). The logger stamps the
record, appends it to an unbounded queue, and a background worker takes the
records off the queue one at a time and writes each as one row of the
`APICall` event table. Categorical fields (HTTP method, status code, error
source, environment, file type) are turned into integer keys of reference
tables first, with hard-coded 'N/A' keys (5 and 49) when nothing resolves.
`shutdown` waits until the queue is drained and then stops the worker.

The model replaces the database by maps from name to key (plus the rows of
the event table), the worker thread by explicit steps, and the clock and
the JSON library by parameters. Modules:

- `PyValues` (`py_values.dfy`): Python values (`Value`), truthiness,
  `dict.get`, `or`, `len`; record field names as the `Key` datatype; a
  record is a `map<Key, Value>`.
- `Lookup` (`lookup.dfy`): the five `_get_*_id` resolvers. The strict,
  passthrough and alias resolvers are functions (they only read). The two
  auto-provisioning resolvers change their table, so the table is the class
  `ProvisionedTable`, whose `Resolve` method is proved against the function
  `Provision`.
- `Writer` (`writer.dfy`): `_insert_log`. The parameter mapping is the pure
  function `InsertParamsOf`; the whole insert on the database's state is
  `InsertLogSpec`; the class `Database` performs it in place
  (`Database.InsertLog`), proved against `InsertLogSpec`.
- `Builders` (`builders.dfy`): the two record builders, as functions
  returning a record or the `TypeError` they can raise.
- `AsyncLogger` (`async_logger.dfy`): the class `Logger` (queue,
  unfinished-task count, running flag), one worker iteration
  (`ProcessNext`), the drain loop behind `queue.join()` (`Drain`),
  `Shutdown`, the singleton (`Registry.GetApiLogger`) and the two module
  functions that build and submit a record. The drain is proved against the
  recursive function `Run`, which states FIFO order and one insert attempt
  per record.

Database faults are explicit inputs: `DbConditions` says, for one insert,
whether the connection fails, whether each lookup query fails (for the
auto-provisioning resolvers, which of their three queries fails, `Fault`),
whether the final write fails, and what the clock reads. A drain takes one
`DbConditions` per record (`env(k)` for the k-th record drained).

Three behaviours of the code that are easy to misread:

- the 'N/A' keys 5 and 49 are used whenever the resolver returns nothing
  (`excalibur_logger.py` lines 108-114): when the field is absent or falsy,
  but also when a query fails or the read-back after an insert fails;
- the environment defaults to "Dev" for any falsy value, an empty string
  included (lines 226-227), and a record without an environment reaches
  the resolver as the text "Dev" (line 104), so the "Development" alias
  applies to it too;
- `log_excalibur_request` returns nothing, although its docstring speaks of
  a request id (lines 305-308).

## Model

| member | source | states |
|---|---|---|
| Lookup.SelectId | excalibur_api_monitoring/excalibur_logger.py:182-187 | a key comes back exactly when the query succeeds, the name is text and the table has it, and it is the table's key for that name |
| Lookup.ResolveHttpMethod | excalibur_api_monitoring/excalibur_logger.py:177-190 | strict lookup: a key exactly when the method is truthy, the query succeeds and the table holds the name, and then it is the table's key; empty input, a miss or a failing query give None; the table is a value and is never changed |
| Lookup.ResolveStatusCode | excalibur_api_monitoring/excalibur_logger.py:192-205 | no table is read; falsy input (0 included) gives None; a non-zero int is its own key, `True` is 1, text is `int()` of the text (None where it does not parse), lists, dicts and datetimes give None |
| Lookup.ParseIntText | excalibur_api_monitoring/excalibur_logger.py:202 | the restricted `int()` on text gives back every integer from its decimal text |
| Lookup.StatusCodeTextRoundTrip | excalibur_api_monitoring/excalibur_logger.py:198-202 | a status code given as the text of any integer resolves to that integer, "0" included |
| Lookup.ResolveEnvironment | excalibur_api_monitoring/excalibur_logger.py:224-242 | falsy input stands for "Dev"; a hit gives the table's key; a miss on "Dev", given as text or by default, retries "Development" and gives its key or None; any other miss and a failing query give None; every key returned is in the table, which is never changed |
| Lookup.Provision | excalibur_api_monitoring/excalibur_logger.py:207-222 | auto-provision: empty input, a name that is not text or a failing first query give None and leave the table; a known name gives its key with no insert; a failing insert leaves the table, and a failing insert or read-back gives None for a new name; the only change ever made is inserting the name under the next identity key; any key returned is the one the table now holds for the name; old entries are kept and keys stay fresh and distinct |
| Lookup.ProvisionInsertsFresh | excalibur_api_monitoring/excalibur_logger.py:215-219 | an unknown name is inserted under the next identity key, which no other name has, and the table grows by one |
| Lookup.ProvisionIdempotent | excalibur_api_monitoring/excalibur_logger.py:209-219 | after a successful insert (even one whose read-back failed) a second resolve returns the stored key and leaves the table as it is |
| Lookup.ProvisionedTable.Resolve | excalibur_api_monitoring/excalibur_logger.py:244-259 | `_get_error_source_id` / `_get_file_type_id` on the mutable table: new table and key are exactly those of `Provision`, and the table stays valid |
| Writer.ExceptionMessageParam | excalibur_api_monitoring/excalibur_logger.py:162 | None exactly when the message is absent or falsy; text is cut to its first min(500, length) characters (unchanged when at most 500); a list to its first 500 items; any other truthy value raises |
| Writer.InsertParamsOf | excalibur_api_monitoring/excalibur_logger.py:107-169 | unresolved error source and file type become 5 and 49, resolved keys pass through unchanged; `is_success` is 1 exactly when the field is truthy, else 0; `retry_count` is 0 only when the key is absent; the exception message is the 500-character cut, NULL exactly when absent or falsy, and the mapping raises exactly when the cut does; phone numbers fall back by truthiness; endpoint, response time, matter id and file name are copied; the creation time defaults to the clock |
| Writer.InsertLogSpec | excalibur_api_monitoring/excalibur_logger.py:98-175 | one insert: a failing connection changes nothing; the method and environment tables are never changed; the event table gains exactly the written row; without connection or write faults and with a sliceable message the row is written; the stored error-source and file-type keys are the provisioned ones or the sentinels; table validity is kept |
| Writer.InsertLogRow | excalibur_api_monitoring/excalibur_logger.py:100-172 | once connected, the auto-provisioned tables are what `Provision` leaves them; the row attempted is `InsertParamsOf` of the five resolvers' keys; `ParamsFailed` happens exactly when that mapping raises; with a working write exactly that row is appended |
| Writer.Database.InsertLog | excalibur_api_monitoring/excalibur_logger.py:93-175 | `_insert_log` on the mutable database: new state and outcome are exactly those of `InsertLogSpec` |
| Builders.StoredPayload | excalibur_api_monitoring/excalibur_logger.py:330-334 | a payload of at most 100000 characters is stored unchanged; a longer one as its first 100000 characters followed by "... [truncated]" |
| Builders.PayloadFields | excalibur_api_monitoring/excalibur_logger.py:326-334 | text: its length before truncation and the truncated text; a dict: raises exactly when serialising raises, else the serialised text's length and its truncation; a list: kept with its length, raising when longer than the limit; anything else raises |
| Builders.RequestBase | excalibur_api_monitoring/excalibur_logger.py:311-323 | the fields always set: the named arguments as given, the method from the keyword arguments or "POST", `file_uploaded` true exactly when a file name is given, the start time from the clock |
| Builders.RequestRecord | excalibur_api_monitoring/excalibur_logger.py:311-337 | the request record: named arguments stored, keyword arguments override every computed field, a falsy payload adds no payload field, a truthy one adds the fields `PayloadFields` states (the size before truncation unless overridden); it raises exactly when those payload fields raise |
| Builders.RequestRecordKeys | excalibur_api_monitoring/excalibur_logger.py:311-337 | a request record holds exactly the eleven fields always set, the two payload fields when the payload is truthy, and the keyword arguments; nothing else |
| Builders.DictPayloadSerialised | excalibur_api_monitoring/excalibur_logger.py:326-334 | a dict payload is serialised before it is measured and truncated; the builder raises exactly when serialising raises |
| Builders.LongPayloadTruncated | excalibur_api_monitoring/excalibur_logger.py:329-332 | a 150000-character payload is stored as its first 100000 characters and the marker, with size 150000 |
| Builders.ExtractMessage | excalibur_api_monitoring/excalibur_logger.py:362-378 | a falsy or unparseable payload, or one where neither branch completes (no envelope, a malformed body or footer, not a dict), leaves the message None and the exception fields as given; a non-empty `EnvelopeBody` supplies `ResultMessage` and wins over the footer; otherwise an `EnvelopeFooter` dict replaces the message, `exception_thrown` (default False) and `exception_message`; the exception fields change only through a footer |
| Builders.ResponseBase | excalibur_api_monitoring/excalibur_logger.py:384-397 | the fields always set, from the arguments, the extraction and the success flag |
| Builders.ResponseRecord | excalibur_api_monitoring/excalibur_logger.py:361-406 | raises exactly when a dict payload cannot be serialised; stores the extracted exception fields; `is_success` is kept when given, else `status == 200 and not exception_thrown` on the extracted value; keyword arguments override; the payload is stored exactly when truthy, a dict as its serialised text, anything else as given |
| Builders.ResponseRecordKeys | excalibur_api_monitoring/excalibur_logger.py:384-406 | a response record holds exactly the twelve fields always set, the payload when it is truthy, and the keyword arguments; nothing else |
| Builders.MalformedPayloadIgnored | excalibur_api_monitoring/excalibur_logger.py:363-378 | a text payload that does not parse never raises: the message is None and the exception fields are as given |
| AsyncLogger.Stamp | excalibur_api_monitoring/excalibur_logger.py:65-66 | `created_at` is added from the clock only when missing; no other field changes |
| AsyncLogger.Run | excalibur_api_monitoring/excalibur_logger.py:76-85 | the worker over a sequence of records: one attempt per record, in queue order; the method and environment tables unchanged; the event table gains exactly the rows written, in order; table validity kept |
| AsyncLogger.RunExtend | excalibur_api_monitoring/excalibur_logger.py:76-85 | running one more record extends the run by exactly that record's insert attempt |
| AsyncLogger.Logger.constructor | excalibur_api_monitoring/excalibur_logger.py:23-35 | a new logger is running with an empty queue and no unfinished task |
| AsyncLogger.Logger.LogApiCall | excalibur_api_monitoring/excalibur_logger.py:39-69 | the stamped record is appended at the tail; one more unfinished task |
| AsyncLogger.Logger.ProcessNext | excalibur_api_monitoring/excalibur_logger.py:76-91 | a stopped worker or an empty queue changes nothing; otherwise the head is removed, inserted exactly once as `InsertLogSpec` says, and the unfinished count drops by one |
| AsyncLogger.Logger.Drain | excalibur_api_monitoring/excalibur_logger.py:267 | `log_queue.join()`: afterwards the queue is empty, no task is unfinished, and database and attempts are those of `Run` over the queued records in order |
| AsyncLogger.Logger.Shutdown | excalibur_api_monitoring/excalibur_logger.py:261-270 | drain as `Run` says, then the worker is stopped with an empty queue |
| AsyncLogger.Registry.GetApiLogger | excalibur_api_monitoring/excalibur_logger.py:279-286 | the first call creates a fresh running logger with an empty queue; every later call returns that same logger |
| AsyncLogger.LogRequest | excalibur_api_monitoring/excalibur_logger.py:293-339 | the singleton (a fresh logger on the configured database on first use) keeps its running flag and attempts, and its queue gains the stamped request record, or the builder's TypeError escapes and nothing is queued |
| AsyncLogger.LogResponse | excalibur_api_monitoring/excalibur_logger.py:342-408 | the singleton (a fresh logger on the configured database on first use) keeps its running flag and attempts, and its queue gains the stamped response record, or the serialisation TypeError escapes and nothing is queued |
| AsyncLogger.ResponseSuccessStored | excalibur_api_monitoring/excalibur_logger.py:380-382 | end to end, for a response with no payload, no success flag and a textual or absent exception message: it is written with IsSuccess 1 exactly when the status is 200 and no exception was thrown, without an error source it gets key 5, and its message is stored cut to 500 characters |

## Left out

- Threads: the daemon worker, `queue.get(timeout=1)`, the blocking `join`
  and `worker_thread.join(timeout=5)` are replaced by explicit sequential
  steps; timeouts and interleavings are not modelled. The check-then-create
  race in `get_api_logger` is not modelled.
- SQLAlchemy, the connection, the SQL text and `execute`/`commit`: the
  tables are maps and the event table a sequence of parameter rows. The
  identity column of an auto-provisioned table is the counter `nextId`.
- Database exceptions appear only as the faults in `DbConditions`. A truthy
  category value that is not text (a number, a list) is modelled as a query
  that fails, since what the SQL driver does with it is outside the model.
- `_get_environment_id` can fail on its first or on its alias query; both
  are folded into one "query fails" flag, with the same result (None).
- `json.loads` / `json.dumps` are parameters (`Parser`, `Serializer`); JSON
  objects are `Dict` values with text keys.
- Floats and bytes are not among the modelled values; a datetime is `Time`
  with an integer timestamp. `datetime.now()` is a parameter; a request's
  start time, or a response's end time, and the record's `created_at` come
  from one clock reading.
- Lookup.ParseIntText: `int()` is restricted to an optional sign followed
  by ASCII digits; surrounding whitespace, underscores and non-ASCII digits,
  which Python accepts, are not modelled.
- AsyncLogger.Logger.LogApiCall: the source adds `created_at` to the
  caller's own dict and queues that same dict; the model queues a stamped
  copy, so later changes by the caller to its dict are not reflected.
- AsyncLogger.Logger.Shutdown: a second shutdown while records are queued
  and the worker is stopped blocks forever in the source; that call is
  excluded by its precondition.
- The worker's `except Exception` branch: `_insert_log` catches everything
  itself, so every failure shows up as an outcome of the attempt.
  `Logger.attempts` is a ghost record of those outcomes kept for the proofs.
- The `print` diagnostics, `load_dotenv` and `os.getenv("DATABASE_URI")`.
- `Key.Other` stands for any keyword argument whose name is not a field the
  logger reads or writes; the key order of the Python dicts is not modelled.
