# spot_exit: audit-first logging of camera exit webhooks

This project models the front half of the `spot_exit` webhook handler
(`POST /spot/exit`) in Dafny. The handler receives a camera "exit" event from
a video-analytics vendor and does two things before it reaches any business
logic:

1. It normalises the request. A missing or unparsable JSON body becomes `{}`.
   A camera id is picked with a fixed precedence: `camera_id`, then `cameraId`,
   then the nested `data.camera.id`. This follows Python's `or`, so the first
   truthy value wins, and otherwise the nested value is taken as it is. A
   non-None id is coerced to text with `str()`. The caller's `timestamp` is
   read as an optional value.
2. It writes one `spot_camera_event` row with status `received` before it
   validates anything. The row holds the camera id, the timestamp and a
   `raw_payload` made of every request header plus the parsed payload. Only
   after that insert does the handler check the `Spot-Webhook-Signature` and
   `Spot-Webhook-Meta` headers. If either is missing or empty, that same row
   is set to `unauthorized` and the response is `{"status": "logged"}` with 200.

Modules:

- `Wrappers` (`wrappers.dfy`): `Option` and `Result`.
- `JsonValue` (`json.dfy`): parsed JSON as the Python objects the handler
  sees. It also defines Python truthiness, dict lookup (the last duplicate
  key wins) and `str()`/`repr()`. Integer rendering is proved invertible.
- `Payload` (`payload.dfy`): lines 4-14 as functions. An exception raised
  there is a `Failure` value, not a precondition.
- `EventLog` (`event_log.dfy`): the `spot_camera_event` table as a class.
  It holds a sequence of rows and an id sequence, has `Insert` and
  `UpdateStatus` methods, and keeps a ghost record of every write in order.
- `SpotExit` (`spot_exit.dfy`): the handler as a method that calls these in
  source order. `Handle` is the function that specifies it; the lemmas
  about `Handle` state the audit-first properties.

Behaviour of the code worth knowing, which the model keeps as written:

- Audit-first logging means every delivery should be logged. The code
  nonetheless calls `.get` on the payload and on the nested `data` and
  `camera` values. A body that is truthy but not an object (`[1]`, `"x"`,
  `5`) raises before the database is reached, and so does a present `data`
  or `camera` that is not an object (`{"data": null}`), when the `or` chain
  gets that far. Nothing is logged for these deliveries. The model answers
  them with `ServerError`. `NonObjectBodyFails` and `NullDataFails` show
  such inputs.
- A missing camera id is stored as NULL (`cameraId` is `None`), not as a
  placeholder text.
- The nested id passes through unchanged when it is falsy but not None, so
  `{"camera_id": "", "data": {"camera": {"id": 0}}}` stores `"0"` (`FalsyNestedIdKept`).

## Model

| member | source | states |
|---|---|---|
| JsonValue.Truthy | app.py:4-11 | a value is falsy exactly when it is None, False, 0, "", [] or {} |
| JsonValue.Lookup | app.py:8-10 | dict lookup: None exactly when no member has the key; otherwise the value of the last member with that key |
| JsonValue.DictKeys | app.py:12 | a dict's keys, each once, are exactly the keys appearing among its members (used by `str()` of a dict) |
| JsonValue.DictKeysInFirstOrder | app.py:12 | a dict's keys come in the order of their first appearance among the members |
| JsonValue.NatToDecimal | app.py:12 | `str()` of a natural number is a non-empty digit string with a leading zero only for 0 |
| JsonValue.NatDecimalRoundTrip | app.py:12 | reading the decimal text of a natural number back gives the number |
| JsonValue.IntDecimalRoundTrip | app.py:12 | `int(str(i)) == i` for every integer, so integer camera ids survive the coercion |
| JsonValue.Repr | app.py:12 | `repr()` of a string is quoted with one quote kind at both ends; of a list or dict, wrapped in `[ ]` or `{ }`; of None, a bool or an integer, the same text as `str()` |
| JsonValue.Str | app.py:12 | `str()` gives a string unchanged, "None", "True"/"False", the canonical decimal of an integer (which parses back to it), and bracketed text for a list or dict |
| JsonValue.StrEmptyOnlyForEmptyString | app.py:12 | `str(v)` is empty exactly when `v` is the empty string |
| Payload.DictGet | app.py:8-10 | `.get` raises exactly when the receiver is not a dict; an absent key gives the default, a present key the value of its last member |
| Payload.PayloadOf | app.py:4 | the payload is the body when the body is truthy, `{}` otherwise |
| Payload.OrChain | app.py:7-11 | Python `or` chain: the result is the first truthy operand, or the last operand when none is truthy |
| Payload.NestedCameraId | app.py:10 | the nested lookup raises exactly when a present `data` is not a dict, or a present `camera` inside a dict `data` is not a dict; otherwise it gives `data.camera.id`, or None when any of the three keys is absent |
| Payload.RawCameraId | app.py:7-11 | on a dict payload the id equals the `or` chain of `camera_id`, `cameraId`, nested id; it raises only when both are falsy and the nested path raises; a non-dict payload raises |
| Payload.CoerceId | app.py:12 | None exactly for None; a string is kept as is; a bool becomes "True"/"False"; an integer becomes its canonical decimal text, which parses back to it; the text is empty only for the empty string |
| Payload.CameraId | app.py:7-12 | a truthy `camera_id` wins; then a truthy `cameraId`; otherwise the nested value is used unchanged; the stored id is None exactly when both are falsy and the nested value is None |
| Payload.Timestamp | app.py:14 | None when `timestamp` is absent, otherwise the value of the last `timestamp` member |
| Payload.Normalize | app.py:4-14 | on success the payload is the normalised body, and the camera id and timestamp are the ones extracted from it; it fails exactly when the payload is not a dict or the camera-id extraction raises |
| Payload.InvalidBodyIsEmptyObject | app.py:4-14 | a missing or invalid body gives payload `{}`, no camera id, no timestamp |
| Payload.AbsentKeysNeverFail | app.py:10 | when `data` and `camera` are each absent or a dict, extraction does not raise |
| Payload.FalsyNestedIdKept | app.py:7-12 | for `{"camera_id": "", "data": {"camera": {"id": 0}}}` the falsy `camera_id` is skipped and the falsy nested id 0 is stored as its text "0" |
| Payload.NonObjectBodyFails | app.py:4-8 | a truthy body that is not an object raises before the insert |
| Payload.NullDataFails | app.py:10 | `{"data": null}` raises on the nested path before the insert |
| EventLog.SetStatusWhere | app.py:53-60 | `UPDATE ... WHERE id`: same row count; rows with the id get the new status and keep every other column; all other rows unchanged |
| EventLog.AppendKeepsIdsIssued | app.py:24-45 | a row inserted under the next id keeps every id below the sequence and in insertion order |
| EventLog.SetStatusKeepsIdsIssued | app.py:53-60 | the status update changes no id |
| EventLog.SetStatusTouchesOneRow | app.py:53-60 | with ids from a sequence, the update changes the status of exactly the one row holding the id |
| EventLog.SetStatusMissingIdIsNoop | app.py:55-57 | an update for an id no row holds changes nothing |
| EventLog.EventTable.Insert | app.py:24-45 | appends exactly one row with status `received` under a fresh id from the sequence, returns that id, leaves the other rows alone, records the insert |
| EventLog.EventTable.UpdateStatus | app.py:53-60 | the table becomes `SetStatusWhere` of the old table; the id sequence is unchanged; records the update |
| SpotExit.HeaderGiven | app.py:52 | `request.headers.get(name)` is truthy exactly when the header is present and not empty |
| SpotExit.AuthHeadersGiven | app.py:52 | the auth check passes exactly when both `Spot-Webhook-Signature` and `Spot-Webhook-Meta` are present and not empty |
| SpotExit.Handle | app.py:4-61 | a delivery that raises in lines 4-14 answers with a server error and leaves the table and the writes untouched; any other adds exactly one row and advances the id sequence by one |
| SpotExit.LogAndClassify | app.py:24-61 | lines 24-61 add one row and advance the sequence; the first write is the insert; the response is `Continue` with the new id when both auth headers are given, `logged` otherwise; the new row is `received` or `unauthorized` accordingly |
| SpotExit.HandleNormalized | app.py:4-61 | a delivery whose body lines 4-14 accept behaves as lines 24-61 on the normalised request |
| SpotExit.SpotExitHandler | app.py:4-61 | the response, the new table, the id sequence and the writes made are those of `Handle`, and the table invariant is kept |
| SpotExit.LogThenCheckAuth | app.py:24-61 | insert then header check on the table: the response, the new table, the id sequence and the writes made are those of `LogAndClassify` |
| SpotExit.LogAndClassifyAppendsOne | app.py:24-61 | after the insert and the header check the table is the earlier rows plus one row under the next id, with ids still issued in order |
| SpotExit.EveryDeliveryLogged | app.py:24-45 | every delivery that passes lines 4-14 adds exactly one row under a fresh id, whatever its headers, and keeps the earlier rows |
| SpotExit.LoggedRowContents | app.py:24-61 | the new row holds the extracted id and timestamp and all headers and the payload unchanged; its status is `unauthorized` exactly when an auth header is missing or empty |
| SpotExit.ResponseClassification | app.py:52-61 | the response is `logged` exactly for a missing or empty auth header, and a server error exactly when lines 4-14 raise |
| SpotExit.UnauthorizedTouchesOnlyNewRow | app.py:53-61 | the `unauthorized` update changes only the status of the row just inserted; the row count and all other data stay the same |
| SpotExit.WriteOrder | app.py:24-61 | the insert is the first write, before any header check; at most one status update follows, on the inserted id, exactly when unauthorised; a raising delivery writes nothing |
| SpotExit.InvalidBodyStillLogged | app.py:4-45 | a missing or invalid body is still logged, with no camera id, no timestamp and payload `{}` |
| SpotExit.RedeliveryLoggedTwice | app.py:24-45 | the same delivery handled twice is logged twice, under two different ids |

## Left out

- The web framework: routing, the `request` object and how `get_json` parses.
  The body is given as an already-parsed `Option<Json>`, where None means
  no JSON or JSON that did not parse.
- HTTP header lookup is case-insensitive in the framework. The model
  matches header names exactly against a `map<string, string>`, and a
  repeated header is not modelled.
- The database driver: the connection, the cursor, the SQL text and how
  `raw_payload` is serialised. The table is an in-memory class.
- The transaction (`with conn:`): commit, rollback, and any statement or
  connection failure. The model assumes the insert and the update succeed.
  It does not model a `timestamp` value that the driver cannot store (an
  object, say), which makes the insert raise.
- Payload.CoerceId: for a list or dict id, the contracts state only that the
  text is bracketed; the exact text (separators, quoting and key order) is
  given by the body of `JsonValue.Repr` alone.
- JSON numbers with a fraction or exponent (Python floats). The model has
  integers only.
- Python's limit on converting very long integers to text is not modelled.
- `repr()` of strings inside lists and dicts escapes quotes, backslashes and
  ASCII control characters. The escapes Python uses for non-printable
  non-ASCII characters are not modelled.
- Everything after line 61: the camera-mapping lookup, the role check, the
  FIFO claim with row locking, and the no-match diagnostics. That code is not
  part of this model. An authorised delivery ends in `Continue(eventId)` with
  its row still `received`.
