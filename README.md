# Air-quality and presence sensor glue, modelled in Dafny

The system polls two sensors through a remote robotics platform: a
particulate-matter sensor and an mmWave presence sensor. It classifies PM2.5
readings against the pre-2024 U.S. EPA AQI breakpoints. The code merges
the EPA's two top rows into one row that ends at 500.0 rather than 500.4. It keeps a rolling
24-hour JSON log of air-quality results and serves current readings and the
history over HTTP behind a shared API key.

This model covers the logic inside that glue:

- **PM2.5 classification** (`Breakpoints`, `AirApi`, `AirRobot`): a first-match
  search over inclusive `(low, high, label)` rows. Values in the gaps between rows
  (12.05, say) are "beyond index", because the code does not truncate to
  0.1 µg/m³ the way the EPA procedure does.
- **The two `assess_air_quality` copies** (`AirApi` for the HTTP service,
  `AirRobot` for the logging robot), over a model of Python values
  (`Values`) with truth testing and `or`. For any selected value that is
  not None, the service classifies it, or raises when it is not a number.
  The robot does this only when the value is truthy. `Copies` proves that the copies differ exactly there.
- **Fetch result shaping** (`Shaping`, `AirApi.ViamResult`,
  `AirRobot.GetAirReadings`, `PresenceRobot.GetPresenceReadings`). The remote
  call is an outcome `Ok(readings) | Err(msg)`. Every exception raised inside
  the fetchers' `try` becomes exactly `{"error": msg}`. That includes the
  TypeError from comparing a non-number and the AttributeError from calling
  `.get` on a non-dict.
- **The API-key gate** of `/get_readings` (`AirApi.GetReadings`).
- **The rolling log** (`AirLog`). A `LogStore` class holds the log file:
  absent, unparsable, or a stored list of entries. `AppendAndTrim` and
  `LogOnce` perform one pass of the logger loop. `History` reads the file back.
  `Trim` is the comprehension that keeps entries strictly younger than 24
  hours. Lemmas prove that it is an order-preserving filter that drops nothing
  recent, is idempotent and distributes over concatenation. Timestamps are
  integers in microseconds. An entry whose timestamp cannot be read makes the
  trim raise. That exception is outside the `try` and nothing in the logger
  catches it, so the logger loop ends before the file is written. The
  unreadable entry stays in the file, so every later run of the logger
  stops at the same point.

A few consequences of the code are worth stating plainly:

- An absent `X-API-Key` header passes the gate when LOCAL_API_KEY is also
  unset, because None equals None.
- A zero `pm2_5_atm` falls back to `pm2_5_CF1` in both copies, through
  Python's `or`. With no `pm2_5_CF1`, both copies report an empty status.
- The copies differ only when that fallback is itself falsy but not None,
  for example `pm2_5_CF1 = 0`. The service then classifies it as "good" and
  the robot reports nothing.
- A selected value that is neither None nor a number makes the service's
  copy raise. The robot's copy raises only when that value is also truthy.
  An empty string, list or dict gives `{}` there. Either raise becomes
  `{"error": msg}` in the fetcher.

## Model

| member | source | states |
|---|---|---|
| `Breakpoints.Classify` | main.py:42-46 | the result is "beyond index" or the label of a row whose inclusive range contains the value |
| `Breakpoints.ClassifyFirstMatch` | main.py:43-45 | the search returns the label of the first row with `low <= v <= high` |
| `Breakpoints.ClassifyNoMatch` | main.py:46 | a value that no row contains gives "beyond index" |
| `Breakpoints.ClassifyUnique` | main.py:27-34 | in an ascending, disjoint table at most one row contains a value, and that row's label is the result |
| `AirApi.Pm25BucketsAscending` | main.py:27-34 | the PM2.5 table's rows are non-empty, ascending and pairwise disjoint |
| `AirApi.BucketPm25` | main.py:42-46 | a non-number makes the comparison raise TypeError with CPython's message; a number gets "beyond index" or a table label |
| `AirApi.ClassifyPm25` | main.py:27-46 | the first-match search equals the table written out as a chain of inclusive range tests |
| `AirApi.BucketPm25Categories` | main.py:27-46 | for every number (bool, int or float) the reading is, each category holds exactly its inclusive range; "beyond index" holds exactly the values below 0.0, above 500.0 or strictly inside a gap between rows |
| `AirApi.BucketPm25Boundaries` | main.py:27-46 | 0.0 and 12.0 are "good", 12.1 is "moderate" and 500.0 is "hazardous"; 12.05, 35.45, 500.1 and -0.1 are "beyond index" |
| `Values.Truthy` | air_quality_robot/readings.py:54 | None is falsy, and a number (bool, int or float) is falsy exactly when it is zero |
| `Values.Get` | main.py:50 | `dict.get` gives the stored value for a present key and None for an absent one |
| `Values.AsNumber` | main.py:44 | the comparison `low <= value` accepts exactly bool, int and float, with False and True as 0 and 1 |
| `Shaping.ComparisonError` | main.py:74-76 | the TypeError message for comparing a float with a non-number is CPython's fixed wording followed by the operand's type name (`Values.TypeName`, CPython's `type(v).__name__`) in quotes |
| `Shaping.NoGetError` | main.py:74-76 | the AttributeError message for `.get` on a non-dict is the value's type name (`Values.TypeName`, CPython's `type(v).__name__`) in quotes followed by CPython's fixed wording |
| `Shaping.ErrorMessagesNameType` | main.py:74-76 | two messages of the same kind are equal exactly when they name the same type, so `str(e)` identifies the offending type |
| `Values.Or` | main.py:50 | Python's `or` returns the first operand when it is truthy and the second otherwise; the result is truthy iff either operand is |
| `Shaping.SelectedPm25` | main.py:50 | `pm2_5_atm` is taken when it is truthy, otherwise `pm2_5_CF1` (None when absent) |
| `AirApi.AssessAirQuality` | main.py:48-53 | the status is empty iff the selected value is None; otherwise its only key is `pm2_5_category`, holding the bucket of that value, or the bucket's exception propagates; non-dict readings raise AttributeError |
| `AirApi.ViamResult` | main.py:55-76 | the result is an error iff the remote call or the assessment raised, and then it is exactly `{"error": msg}` carrying that exception's message; otherwise it has exactly `readings` (unchanged) and `status` |
| `AirApi.GetViamReadings` | main.py:55-76 | the fetch returns what `ViamResult` specifies for the outcome of the remote call |
| `AirApi.GetReadings` | main.py:78-83 | the response is the robot's shaped readings iff the header equals LOCAL_API_KEY (None equals None, so an absent header passes when the key is unset); otherwise it is 401 "Unauthorized" whatever the robot would have returned |
| `AirRobot.BucketPm25` | air_quality_robot/readings.py:46-50 | the same first-match semantics as the service's copy over its own table |
| `AirRobot.AssessAirQuality` | air_quality_robot/readings.py:52-54 | the status is empty iff the selected value is falsy (None or a zero); otherwise its only key is `pm2_5_category` with the bucket of that value, or the bucket's exception propagates |
| `AirRobot.GetAirReadings` | air_quality_robot/readings.py:30-44 | the result is an error iff the remote call or the assessment raised, and then it is exactly `{"error": msg}` carrying that exception's message; otherwise exactly `readings` (unchanged) and `status` |
| `Copies.BucketCopiesAgree` | air_quality_robot/readings.py:10-17 | the robot's table and classifier agree with the service's on every value |
| `Copies.AssessCopiesAgreeUnlessFalsy` | air_quality_robot/readings.py:52-54 | the two assessments agree iff the readings are not a dict whose selected value is falsy but not None |
| `Copies.ZeroReadingsDiffer` | air_quality_robot/readings.py:53-54 | with `pm2_5_atm = 0` and `pm2_5_CF1 = 0` the service gives "good" and the robot gives `{}` |
| `Copies.ZeroAtmFallsBack` | main.py:50-52 | a zero `pm2_5_atm` falls back to `pm2_5_CF1` in both copies (20.0 gives "moderate") |
| `Copies.ZeroAtmAloneEmpty` | main.py:50-52 | `{"pm2_5_atm": 0}` alone selects None (`0 or None`), so both copies report an empty status |
| `Copies.EmptyStringDiffers` | air_quality_robot/readings.py:53-54 | `{"pm2_5_CF1": ""}` makes the service's assessment raise the comparison TypeError and its fetch return an error, while the robot's assessment gives `{}` and its fetch returns the readings with an empty status |
| `Copies.FortyExample` | main.py:48-53 | `{"pm2_5_atm": 40.0}` is "unhealthy for sensitive groups" in both copies |
| `AirLog.Trim` | air_quality_robot/readings.py:77-81 | every kept entry's timestamp is strictly after the cutoff, and no more entries are kept than were given |
| `AirLog.Loaded` | air_quality_robot/readings.py:65-72 | the logger starts from the stored list, or from `[]` when the file is absent or cannot be parsed |
| `AirLog.Recent` | air_quality_robot/readings.py:80 | an entry without a readable timestamp is never recent; one with a readable timestamp is recent iff it is strictly after the cutoff |
| `AirLog.TrimRaises` | air_quality_robot/readings.py:78-81 | the trim raises iff some entry's timestamp is unreadable |
| `AirLog.TrimIsSubsequence` | air_quality_robot/readings.py:78-81 | the kept list is a subsequence of the input, so order is preserved |
| `AirLog.TrimCounts` | air_quality_robot/readings.py:78-81 | each recent entry is kept as many times as it occurs and no other entry is kept, so nothing else is dropped |
| `AirLog.TrimKeepsRecent` | air_quality_robot/readings.py:78-81 | an entry is kept iff it was in the input and is younger than the cutoff |
| `AirLog.TrimConcat` | air_quality_robot/readings.py:78-81 | trimming a concatenation is the concatenation of the trims |
| `AirLog.TrimAllRecent` | air_quality_robot/readings.py:78-81 | a list whose entries are all younger than the cutoff is left unchanged |
| `AirLog.TrimIdempotent` | air_quality_robot/readings.py:78-81 | trimming the result again with the same or an earlier cutoff changes nothing |
| `AirLog.TrimAppended` | air_quality_robot/readings.py:74-81 | appending a recent entry and trimming puts it last, after the trimmed old list |
| `AirLog.TwentyFiveHourExample` | air_quality_robot/readings.py:74-81 | entries 25 h and 1 h old plus a new one leave the 1 h old entry and the new one |
| `AirLog.LogStore.AppendAndTrim` | air_quality_robot/readings.py:65-84 | an absent or unparsable file counts as empty; if the trim raises, the file is untouched; otherwise the file is overwritten with the trimmed list, which is all recent, is a subsequence of the loaded list plus the entry, and ends with the entry when it is recent |
| `AirLog.LogStore.LogOnce` | air_quality_robot/readings.py:59-84 | one logger pass crashes iff a stored entry's timestamp is unreadable, and then the file is untouched; otherwise the file is exactly the trim of the loaded list plus the stamped fetch result, which is the trimmed old log followed by that entry when the stamp is within 24 h of the trim clock, and the trimmed old log alone when it is not |
| `AirLog.LogStore.History` | air_quality_robot/readings.py:88-92 | an absent file gives `[]`, a stored list comes back unchanged and untrimmed, and an unparsable file raises |
| `PresenceRobot.PresenceState` | presence_robot/readings.py:26 | a dict's `detection_status` is used, or None when the key is missing; a non-dict gives None with no lookup |
| `PresenceRobot.GetPresenceReadings` | presence_robot/readings.py:17-34 | a failure gives exactly `{"error": msg}`; a success gives exactly `readings` (unchanged) and `presence_state` |
| `PresenceRobot.PresenceExamples` | presence_robot/readings.py:26-31 | `{"detection_status": "occupied"}` gives "occupied"; a list, or a dict without the key, gives None |

## Left out

- The robotics SDK calls (`RobotClient.at_address`, `Sensor.from_robot`, `get_readings`, `close`) are foreign network I/O. They are one outcome value, `Ok(readings)` or `Err(msg)`. Which step failed is not distinguished, and the connection left open on the error path is not modelled.
- Configuration from the environment and `.env` (`os.getenv`, `load_dotenv`): the API key and the remote outcome are parameters. Addresses, key ids and sensor names are not modelled.
- FastAPI routing, CORS, the static `FileResponse` routes, `/ping` and `/`: framework plumbing with constant outputs. The 401 is a `Response` value, not a raised HTTPException.
- The `while True` loops and `asyncio.sleep` (the logger's 300 s interval and the presence logger, which only prints): only one pass of the air-quality logger is modelled.
- `datetime.utcnow()`, `isoformat` and `fromisoformat`: instants are integers in microseconds, passed in as two readings of the clock. A timestamp that is missing, malformed or otherwise not comparable is an unreadable timestamp.
- `json.load`/`json.dump`: the file is a value that is absent, unparsable (carrying the decoder's message) or a list of entries. A parseable JSON document that is not a list is not modelled. The logger would crash on its `append`, and the history would return it as is.
- PM2.5 values are exact reals, not IEEE-754 doubles. The code only compares them against the table's literals, so rounding is not modelled. Neither are NaN or infinities.
- `print` diagnostics.
