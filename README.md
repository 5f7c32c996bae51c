# cmx-anonymiser in Dafny

A model of the logic of `cmx-anonymiser.py`, a script that polls a Cisco CMX
location server. It pulls client and access-point telemetry, replaces each client MAC
address with a salted SHA-256 token, and hands the rows to a CSV writer. A run is
either one immediate collection or a set of timers at given times of day over a
number of days.

The model has six modules:

- `Base` (base.dfy): `Option`, `Result`, and the Python exceptions that can escape (`PyError`).
- `Anonymiser` (anonymiser.dfy): `deidentifyMac`. The SHA-256 function is a
  parameter of type `seq<Byte> -> Digest`, where a `Digest` is 32 bytes.
  `str.encode()` (UTF-8) and `hexdigest()` (lowercase hex) are written out. The
  token is proved to be 64 lowercase hex characters. Its hash input is the salt's
  bytes followed directly by the MAC's bytes. A token collision is proved to be a
  SHA-256 collision.
- `Json` (json.dfy): decoded payload values, and the Python operations the row
  builders apply to them: subscripting, `len()` and `for` iteration. Each has its
  `KeyError`, `TypeError` and `IndexError` cases.
- `Request` (request.dfy): the `requestCMX` retry loop. The transport is a sequence
  of per-attempt outcomes (an exception, or a response with a status code and a
  body). The loop is proved equal to a closed-form `Fetch`. Properties of `Fetch`
  cover:
  - the attempt budget;
  - when `isError` is False, True or never written;
  - which response is returned;
  - one sleep per caught exception.
- `Collection` (collection.dfy): `getCMXData` and `getCMXAPData`, which fetch,
  check the status and build rows, share one record loop. `getData` decides which
  files get written.
- `Schedule` (schedule.dfy): the planning part of `main`:
  - the `now` shortcut;
  - `str.split`, Python `int()` and the `datetime()` range check;
  - the nested day/mark loops that collect the delays given to `s.enter`.

Time is integer seconds on a naive local clock, with days of 86400 seconds.

Some behaviours of the script as written, which the model keeps:

- A record that lacks a field, or whose MAC is not a string, raises. That ends the
  whole collection; the record is not skipped.
- If every allowed attempt gets a non-200 answer, `isError` is never written. The
  `defaultdict` then reads it as an empty list, which is falsy, so it counts as
  "no error". The dictionary holds that status code and no rows, not even the
  header, and `getData` still writes the (empty) file.
- With `retry` at most 0, no attempt is made. `response` is then still the
  `requests.Session()` placeholder, and reading its `status_code` raises.
- A caught exception sleeps even when it happens on the last allowed attempt.
- `ConnectTimeout` is a subclass of `ConnectionError`, so the first handler catches
  it. The handlers differ only in their log line.
- With `days` at most 0, the schedule entries are never parsed, so even a malformed
  list schedules nothing, without an error.

## Model

| member | source | states |
|---|---|---|
| Anonymiser.DeidentifyMac | cmx-anonymiser.py:84-88 | the token is 64 characters, each a lowercase hexadecimal digit |
| Anonymiser.TokenHashesSaltThenMac | cmx-anonymiser.py:87 | the token is the hex digest of the UTF-8 bytes of salt ++ mac: salt first, no separator; reading the token back as hex gives exactly that digest |
| Anonymiser.TokenSeesOnlyConcatenation | cmx-anonymiser.py:87 | two (salt, mac) pairs with the same concatenation get the same token |
| Anonymiser.MacTokenCollisionIsShaCollision | cmx-anonymiser.py:84-88 | under one salt, two different MACs share a token only if SHA-256 maps two different byte strings to one digest |
| Anonymiser.SaltTokenCollisionIsShaCollision | cmx-anonymiser.py:84-88 | for one MAC, two different salts give one token only through a SHA-256 collision on different inputs |
| Anonymiser.TokenDiffersFromMac | cmx-anonymiser.py:84-88 | a token never equals an input whose length is not 64 |
| Anonymiser.Utf8CharDecodes | cmx-anonymiser.py:87 | the 1-4 byte UTF-8 form of a character decodes back to its scalar value |
| Anonymiser.Utf8 | cmx-anonymiser.py:87 | `str.encode()` takes one to four bytes per character |
| Anonymiser.Utf8Concat | cmx-anonymiser.py:87 | encoding a concatenation gives the concatenated encodings, so `salt.encode()+mac.encode()` is `(salt+mac).encode()` |
| Anonymiser.Utf8Ascii | cmx-anonymiser.py:87 | characters below 128 encode as themselves, one byte each |
| Anonymiser.Utf8Injective | cmx-anonymiser.py:87 | different strings have different UTF-8 encodings |
| Anonymiser.HexDigest | cmx-anonymiser.py:87 | `hexdigest()` gives two lowercase hex digits per byte |
| Anonymiser.UnHexHexDigest | cmx-anonymiser.py:87 | the hex text decodes back to the digest bytes, so no information is lost |
| Json.SubscriptCases | cmx-anonymiser.py:170-249 | `Json.Subscript`, Python's `v[sel]`: only KeyError, TypeError or IndexError can come out; TypeError iff v is not an object and is not a list or string indexed by an integer; KeyError iff v is an object and the key is an integer or missing; a hit on an object is that key's value, on a list one of its elements, on a string a one-character string of it |
| Json.LookupPair | cmx-anonymiser.py:171-196 | a chain of two subscripts, as in `client['mapInfo']['floorRefId']`, fails with the first subscript's exception or is the second applied to the first's result |
| Json.LenCounts | cmx-anonymiser.py:226 | `Json.Len`, Python's `len()`: defined exactly on lists, strings and objects, TypeError otherwise; for a list or string it is the number of non-negative indices subscripting accepts, for an object its number of keys |
| Json.RecordsVisits | cmx-anonymiser.py:169 | `Json.Records`, the elements `for client in response.json()` visits: it gets through a list, visiting `v[0]`, `v[1]`, ... in order, or an empty string or object; anything else raises TypeError; it visits `len(v)` elements |
| Json.LookupAll | cmx-anonymiser.py:170-197 | a list display of subscript chains succeeds iff every chain does, giving their values in order; otherwise it raises the exception of the first failing chain |
| Request.FirstOk | cmx-anonymiser.py:95-101 | the first 200 answer: none before it, and it is a 200 when in range |
| Request.AttemptsUsed | cmx-anonymiser.py:92-122 | at most max(0, max_retries) attempts; none before the last is a 200; stopping before the budget is spent means the last attempt was a 200 |
| Request.RequestCMX | cmx-anonymiser.py:90-124 | the loop gives the number of attempts, the final `isError` state, the last response and the sleep count that `Fetch` defines from the outcomes |
| Request.LastWriteCases | cmx-anonymiser.py:99-121 | with no earlier 200, the flag is False iff the last attempt got a 200, True iff not and some attempt raised, unwritten iff every attempt got a non-200 answer |
| Request.FetchErrorFlag | cmx-anonymiser.py:93-122 | over the attempts the budget allows: `isError` is False iff one gets a 200, True iff none does and one raises, never written iff all get non-200 answers |
| Request.LastResponseCases | cmx-anonymiser.py:94-98 | `response` stays the placeholder iff every attempt raised; otherwise it is the latest answer received: some attempt's answer after which every attempt raised |
| Request.FetchResponse | cmx-anonymiser.py:94-124 | a False flag comes with a 200 response; the placeholder stays iff every attempt made raised, and then the flag is True unless no attempt was made; with no budget, nothing happens at all |
| Request.CountRaisedCounts | cmx-anonymiser.py:102-121 | the loop sleeps once per caught exception: on every attempt iff all raised, never iff none did |
| Request.RecoversOnThirdAttempt | cmx-anonymiser.py:95-122 | with three attempts allowed, two connection failures then a 200 give three attempts, two sleeps, flag False and that response |
| Collection.MacOfCases | cmx-anonymiser.py:170 | `Collection.MacOf`, `client['macAddress']` then `.encode()`: succeeds iff the record is an object with a string `macAddress`, giving that string; KeyError iff the field is missing; AttributeError iff it is not a string; TypeError iff the record is not an object |
| Collection.ClientRow | cmx-anonymiser.py:170-197 | a client row exists iff the MAC is a string and all 26 other fields exist; it has 27 cells, the first is the token of the MAC, and cell k+1 is field k copied unchanged |
| Collection.ClientRowHidesMac | cmx-anonymiser.py:170 | for a MAC whose length is not 64 (every real MAC address), the first cell is not the raw MAC |
| Collection.ClientPathsSkipMac | cmx-anonymiser.py:171-196 | no column other than the first reads `macAddress`: each of the other 26 subscript chains starts from a different field |
| Collection.InterfaceCountIndices | cmx-anonymiser.py:226-238 | `Collection.InterfaceCount`, `len(ap['apInterfaces'])`: raises only KeyError or TypeError; succeeds iff the field exists and is a list, string or object; for a list, `ap['apInterfaces'][i]` exists for i >= 0 iff i is below the count |
| Collection.ApRow | cmx-anonymiser.py:226-249 | 2 interfaces: all 10 fields copied; 1 interface: the second interface's channel and power are 0; any other count: no row; a missing field raises |
| Collection.Entry | cmx-anonymiser.py:169-249 | every row a record yields is as wide as its kind's header (27 or 10) |
| Collection.RowsErrorPersists | cmx-anonymiser.py:169-249 | once a record raises, the loop is over: later records change nothing |
| Collection.RowsSucceedIffNoRecordRaises | cmx-anonymiser.py:169-249 | the record loop succeeds iff no record raises; otherwise its exception is that of the first record that raises |
| Collection.RowsConcat | cmx-anonymiser.py:169-249 | rows keep record order: the rows of a + b are those of a followed by those of b |
| Collection.RowsFromRecords | cmx-anonymiser.py:169-249 | there are at most as many rows as records, and a row appears iff some record produced it |
| Collection.RowsOnePerRecord | cmx-anonymiser.py:169-249 | when every record yields a row, row i comes from record i |
| Collection.AppendRows | cmx-anonymiser.py:139-249 | the loop gives the header row, then the rows of `Rows` for the records, or the first record's exception |
| Collection.GetCMXData | cmx-anonymiser.py:126-252 | the dictionary `Dict` defines from requestCMX's result: flagged means no status and no data; the placeholder raises AttributeError; non-200 gives the status and no data; a 200 gives the header and rows |
| Collection.DictShape | cmx-anonymiser.py:133-252 | data is non-empty iff the status is 200, and then starts with the header; every row is as wide as the header; a flagged fetch records no status |
| Collection.ClientRecordRows | cmx-anonymiser.py:169-197 | when the client loop succeeds, it yields exactly one row per record, and row i is the row of record i |
| Collection.ClientDictRows | cmx-anonymiser.py:137-197 | after a 200 answer, data holds one row per client record plus the header, and row i+1 is the row of record i |
| Collection.ClientBatchAborts | cmx-anonymiser.py:169-197 | after a 200 answer with a list body, the client fetch fails iff some record is malformed |
| Collection.NoAttemptsRaise | cmx-anonymiser.py:93-135 | with `retry` at most 0, the fetch raises AttributeError on `response.status_code` |
| Collection.OnlyNon200Answers | cmx-anonymiser.py:95-137 | when every allowed attempt gets a non-200 answer, the flag is never written and the dictionary holds the last status and no data |
| Collection.GetData | cmx-anonymiser.py:281-298 | one cycle asks for the file writes, and stops on the exception, that `CycleOf` defines from the two dictionaries |
| Collection.CycleWrites | cmx-anonymiser.py:286-295 | the AP file is written iff its fetch did not raise and its flag reads false; the client file iff both fetches did not raise and its flag reads false; the AP file comes first; the cycle crashes iff a fetch it reached raised |
| Schedule.HasInfixIff | cmx-anonymiser.py:305 | `w in s` holds iff w occurs in s at some index |
| Schedule.NowShortcut | cmx-anonymiser.py:305-306 | planning yields the immediate run iff the schedule contains `now` somewhere |
| Schedule.Split | cmx-anonymiser.py:310 | `str.split` gives at least one part, and no part contains the separator |
| Schedule.JoinSplit | cmx-anonymiser.py:310 | joining the parts with the separator gives back the string |
| Schedule.SplitJoin | cmx-anonymiser.py:310 | splitting parts joined by a separator none of them contains gives back the parts |
| Schedule.ParseIntShow | cmx-anonymiser.py:316-317 | `int()` reads back every decimal numeral, negative ones included |
| Schedule.ParseIntIgnoresSpaces | cmx-anonymiser.py:316-317 | `Schedule.ParseInt`, Python's `int()`: leading and trailing whitespace do not change the result |
| Schedule.ParseIntBlank | cmx-anonymiser.py:316-317 | `int()` of an empty or blank string raises |
| Schedule.ParseIntExamples | cmx-anonymiser.py:316-317 | `int(" -1_0 ")` is -10, `int("09")` is 9, `int("+7")` is 7; `"1__0"`, `"_1"`, `"1_"`, `"+"` and `""` are rejected |
| Schedule.ParseMark | cmx-anonymiser.py:315-321 | an entry is accepted iff it splits on `:` into exactly two parts that `int()` accepts, with hour in 0..23 and minute in 0..59, and then the mark is those two values; OverflowError iff both parts parse but one does not fit a C int (`datetime()` converts before it range-checks); every other failure is ValueError |
| Schedule.ParseMarkShown | cmx-anonymiser.py:315-321 | for `Show(h):Show(m)`: the mark (h, m) when it is a valid time of day; OverflowError when h or m does not fit a C int, even if the other is out of range; ValueError otherwise |
| Schedule.ParseFormattedMark | cmx-anonymiser.py:310-321 | every valid `H:MM` entry (as in the default `9:00,12:00,15:00,18:00`) parses back to its hour and minute |
| Schedule.ParseMarksCases | cmx-anonymiser.py:314-317 | the list parses iff every entry does, and then mark i is entry i's |
| Schedule.ParseMarksErrorPersists | cmx-anonymiser.py:314-321 | the first malformed entry decides the result |
| Schedule.ParseMarksFirstError | cmx-anonymiser.py:314-321 | a failing list raises the exception of its first malformed entry, every earlier entry being accepted; so ValueError or OverflowError |
| Schedule.DelayFormula | cmx-anonymiser.py:319-323 | the delay of day d at mark (h, m) is d·86400 + 3600h + 60m minus the seconds elapsed since today's midnight |
| Schedule.DayDelaysMembers | cmx-anonymiser.py:315-327 | one day yields at most one delay per mark, and exactly the positive delays of its candidates |
| Schedule.DelaysMembers | cmx-anonymiser.py:314-327 | every delay is positive; at most days × marks of them; a value is among them iff it is the positive delay of some day offset below `days` at some mark |
| Schedule.DayDelaysWindow | cmx-anonymiser.py:319-323 | the delays of day d fall within day d (from d·86400 minus today's elapsed seconds, up to one day later) |
| Schedule.DayDelaysIncreasing | cmx-anonymiser.py:315-327 | within a day, marks in increasing time give increasing delays |
| Schedule.DelaysBelow | cmx-anonymiser.py:314-327 | the delays of the first n days all fall before day n |
| Schedule.AscendingMarksGiveIncreasingDelays | cmx-anonymiser.py:314-327 | with marks listed in increasing time of day, the delays are strictly increasing: day-major, then mark order |
| Schedule.DayTimers | cmx-anonymiser.py:315-327 | one pass of the inner loop gives that day's positive delays in entry order, or raises for the first malformed entry |
| Schedule.Start | cmx-anonymiser.py:300-329 | planning gives the immediate run, the timers or the exception that `PlanOf` defines from the schedule, the day count and the clock |
| Schedule.PlannedTimers | cmx-anonymiser.py:312-327 | all registered delays are positive; at most days × entries of them; exactly the positive candidate delays; none when `days` is at most 0 |
| Schedule.PlanFailure | cmx-anonymiser.py:314-321 | planning raises iff there is no `now`, at least one day, and a malformed entry; the exception is ValueError or OverflowError |
| Schedule.NineOClockExamples | cmx-anonymiser.py:319-327 | a 9:00 mark planned at 8:00 gives one timer an hour later; planned at 10:00 it gives none that day, and the next day's timer 23 hours later |

## Left out

- Configuration loading (cmx-anonymiser.py:31-59): the retry count, the salt, the day
  count and the schedule string are parameters. The sleep length, timeout, URLs,
  credentials and output directories are used only by I/O that is not modelled.
- The log directory and all `logging` calls (cmx-anonymiser.py:62-82 and every call
  site): file and console output only.
- `writeFile` (cmx-anonymiser.py:254-279): directory creation, CSV output and file
  names are I/O. The model records each call as a `FileWrite` with its name prefix
  and rows.
- The HTTP request, basic authentication, TLS and JSON decoding (cmx-anonymiser.py:98,
  169, 225): an input sequence of attempt outcomes replaces them. A body is a
  decoded `Json` value, or absent when `response.json()` would raise.
- Request.RequestCMX: how long `time.sleep` waits is not modelled, only how many
  times it is called.
- The `sched.scheduler` (cmx-anonymiser.py:308, 327-329): only the list of delays
  passed to `s.enter` is modelled, not when the timers fire or how `s.run()` blocks.
  The `getData` cycles the timers would run are the `GetData` method on its own.
- Schedule.Delay: `datetime.now()` is read once as an integer number of seconds,
  with days of 86400 seconds. Calendar details, daylight-saving changes, the second
  `datetime.now()` at cmx-anonymiser.py:319 and fractional seconds are not
  modelled. With a fraction, the true delay is the modelled one minus that fraction.
  The `secs > 0` decision for an integer candidate is the same either way.
- Schedule.PlanOf: the OverflowError that `datetime.now() + timedelta(days=day)`
  (cmx-anonymiser.py:319) raises once the date passes year 9999 is not modelled.
  This happens for `days` above about 2.9 million. For such inputs the model plans
  timers where the script raises, because the model has no calendar and so no
  largest date.
- Schedule.ParseInt: whitespace is stripped only for the ASCII characters space, \t,
  \n, \r, \x0b and \x0c, and only ASCII digits are accepted. Python's `int()` also
  accepts other Unicode whitespace and digits.
- Schedule.ParseInt: the limit of 4300 digits that Python 3.11 and later put on
  `int()` of a string is not modelled. Beyond it `int()` raises ValueError, where the
  model returns the value (4300 zeros followed by `9` reads as 9). The limit is a
  setting of the interpreter (`sys.set_int_max_str_digits`), not of the script.
- Anonymiser.DeidentifyMac: the internals of SHA-256 (FIPS 180-4) are not modelled.
  It is any function from byte strings to 32-byte digests. Only its fixed output
  length and determinism are used.
- Anonymiser.Utf8: lone surrogate code points, which `str.encode()` rejects, do not
  occur in Dafny strings.
- Json.Json: JSON numbers with a fraction are carried as exact reals rather than
  binary floating point. The script only copies them.
- An exception escaping `getData` or `main` ends the process. The model stops at the
  exception: `Cycle.crash` and `Plan.Failed`.
