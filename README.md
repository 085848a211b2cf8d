# AirLytics flight-delay pipeline, modelled in Dafny

AirLytics has three pieces:

- a Swing client, `FlightPredictor`, that loads a CSV file of flights with `CSVUtils.readCSV`;
- a prediction loop that sends each flight to a Flask service and fills a table with
  "DELAYED" / "ON TIME" verdicts;
- a row filter and two summary counts over that table.

The service's `predict` handler runs a fixed chain of guards over the JSON body, then one
call of the classifier.

The model has one module per concern:

- `Outcomes`: `Option` and `Result`, and `Map.get` as `Get`.
- `Decimal`: digit strings, shared by Java's `Integer.parseInt` and Python's `int()`/`str()`.
- `JavaText`: `String.trim`, `String.split(",")`, `Integer.parseInt`, and the case-insensitive
  search of the airline filter.
- `CsvUtils`: `readCSV`.
  - The input is the file's sequence of lines. The empty sequence is a file whose first
    `readLine()` returns `null`.
  - The reading loop and the column loop are methods, proved against the function `ParseCsv`.
- `FlightPredictor`: the client.
  - `class FlightTable` holds the table rows, the sorter's row filter and the two summary counts.
  - Its methods are `PredictFlights` (the loop of `doInBackground`), `DoInBackground`,
    `Run` (`doInBackground` followed by `done`), `ApplyFilter` and `UpdateSummaryLabels`.
  - The payload of `callPredictionAPI` is `BuildPayload`.
  - The HTTP exchange is an oracle `Server` from payload to verdict.
- `PyText`: the Python built-ins the handler applies: `str.strip()`, `str()` and `int()`.
- `App`: the `predict` handler, modelled as the function `Predict`.
  - The four label encoders are finite maps, and the classifier is a function parameter.
  - The guards are also named as the list `CheckOrder`.
  - The lemmas prove that the answer is the rejection of the first failing check, in that
    order, and that the handler answers with a verdict exactly when every check passes.
- `Pipeline`: the client and the service together.
  - The payload becomes the body the service decodes: a `null` value is left out of the
    JSON object.
  - The lemmas follow a CSV row through the service, and cover missing columns and known labels.

## Model

| member | source | states |
|---|---|---|
| Outcomes.Get | FlightPredictor.java:198-203 | `Map.get` is null exactly for an absent key, else the stored value |
| CsvUtils.ZipPrefixKeys | CSVUtils.java:36-37 | after `n` puts the row's keys are exactly the trimmed headers `0..n-1` |
| CsvUtils.ZipPrefix | CSVUtils.java:36-37 | the row after the first `n` calls `row.put(headers[i].trim(), values[i].trim())`, each put overriding an earlier value under the same key; stated by `ZipPrefixKeys`, `ZipPrefixLastWins` and `ZipPrefixUsesPrefix` |
| CsvUtils.ZipKeys | CSVUtils.java:36-37 | a row's keys are exactly the trimmed headers of the first min(#headers, #values) columns; a short line leaves the later headers absent |
| CsvUtils.ZipPrefixLastWins | CSVUtils.java:37 | the value under a key is the trimmed value of the last column whose header trims to it (`HashMap.put` overwrites) |
| CsvUtils.ZipPrefixUsesPrefix | CSVUtils.java:36-37 | a row depends only on the values of the columns it fills |
| CsvUtils.ZipIgnoresExtraValues | CSVUtils.java:36 | values beyond the last header are ignored |
| CsvUtils.Zip | CSVUtils.java:33-38 | the row built from one line; its keys, its values and the duplicate-header rule are stated by `ZipKeys`, `ZipPrefixLastWins` and `ZipIgnoresExtraValues` |
| CsvUtils.NonBlankLines | CSVUtils.java:25-27 | the kept data lines are never blank after `trim()` and are at most as many as the lines |
| CsvUtils.NonBlankLinesAppend | CSVUtils.java:25-27 | skipping blank lines keeps order: it distributes over concatenation |
| CsvUtils.NonBlankLinesCount | CSVUtils.java:25-27 | the number of kept lines is the number of lines whose `trim()` is not empty |
| CsvUtils.RowsOf | CSVUtils.java:40 | one row per line, in line order, each the line's `split(",")` zipped with the header |
| CsvUtils.AppendLine | CSVUtils.java:25-40 | one more line adds nothing when blank, else appends exactly its row |
| CsvUtils.ReadOneMoreLine | CSVUtils.java:25-40 | the loop step: reading line `i` after lines `1..i` |
| CsvUtils.ParseCsv | CSVUtils.java:12-45 | no header line gives the "CSV file is empty!" error; otherwise one row per non-blank later line, in order, and the header is never a row |
| CsvUtils.PutColumns | CSVUtils.java:33-38 | the column loop builds exactly the zipped row |
| CsvUtils.ReadCsv | CSVUtils.java:12-45 | the reading loop returns exactly `ParseCsv(lines)` |
| JavaText.TrimStartSkips | CSVUtils.java:27 | `trim()` starts at the first character above U+0020, skipping only characters up to U+0020 |
| JavaText.TrimEndSkips | CSVUtils.java:27 | `trim()` ends after the last character above U+0020, dropping only characters up to U+0020 |
| JavaText.Trim | CSVUtils.java:27 | `String.trim`; never longer than the text, and characterised by `TrimIsInfix` and `TrimIdempotent` |
| JavaText.TrimIsInfix | CSVUtils.java:27 | `trim()` is empty exactly for a line of characters up to U+0020; otherwise it keeps an infix that starts and ends with a kept character, with only removable characters around it |
| JavaText.TrimIdempotent | CSVUtils.java:37 | trimming twice is trimming once |
| JavaText.FirstComma | CSVUtils.java:22 | the index found is a comma with no comma before it |
| JavaText.Pieces | CSVUtils.java:22 | splitting at every comma gives at least one piece, none containing a comma |
| JavaText.JoinPieces | CSVUtils.java:30 | splitting loses nothing: the pieces joined with commas give back the line |
| JavaText.PiecesOfJoin | CSVUtils.java:30 | joining comma-free pieces and splitting again gives the same pieces |
| JavaText.DropTrailingEmpty | CSVUtils.java:30 | the result is the longest prefix that does not end in an empty string; everything dropped is empty |
| JavaText.SplitComma | CSVUtils.java:22 | `split(",")` returns a comma-free line whole; otherwise a prefix of the pieces with all dropped pieces empty and no empty piece last |
| JavaText.SplitOfJoin | CSVUtils.java:30 | splitting comma-joined fields gives them back, less the empty ones at the end |
| JavaText.SplitDropsTrailingEmptyFields | CSVUtils.java:30 | `"AA1,Delta,,,"` splits into `["AA1", "Delta"]` |
| JavaText.SplitOfEmptyLine | CSVUtils.java:30 | `""` splits into `[""]` |
| JavaText.SplitOfLoneComma | CSVUtils.java:30 | `","` splits into `[]` |
| JavaText.ParseInt | FlightPredictor.java:238 | `Integer.parseInt` yields only 32-bit values, and only from text that starts with a digit or a sign; `ParseIntOfNumeral` gives the value of every numeral and `ParseIntRejectsNonNumerals` states that every other text throws |
| JavaText.ParseIntRejectsNonNumerals | FlightPredictor.java:238 | text that is not an optional sign followed by one or more digits and nothing else (such as "14x", " 14", "1 4" or "") throws `NumberFormatException` |
| JavaText.ParseIntOfNumeral | FlightPredictor.java:238 | a signed numeral, with or without a sign or leading zeros, parses to the value it denotes exactly when that value fits in 32 bits, and throws otherwise |
| JavaText.ParseIntOfPaddedHours | FlightPredictor.java:238 | `parseInt` gives 7 for "07", 14 for "+14" and -7 for "-007" |
| JavaText.ParseIntOfDecimal | FlightPredictor.java:238 | `parseInt` reads back exactly the 32-bit integers from their decimal text and rejects the others |
| JavaText.LowerAll | FlightPredictor.java:101 | the lower-cased text has the same length, character by character |
| JavaText.ContainsIgnoreCase | FlightPredictor.java:101 | the `(?i)` find, taken character by character; `ContainsIgnoreCaseIsLoweredContains` states it is exact search on the lower-cased texts |
| JavaText.ContainsIgnoreCaseIsLoweredContains | FlightPredictor.java:101 | the `(?i)` search is exact substring search on the lower-cased texts |
| Decimal.DigitValue | app.py:31 | the value of one ASCII digit, below ten; `DigitChar` is its inverse |
| Decimal.DigitsValue | FlightPredictor.java:238 | the value `parseInt` and `int()` give a run of digits, most significant first, leading zeros allowed; `DigitsRoundTrip` and `LeadingZeroValue` state it |
| Decimal.DigitChar | app.py:25 | the digit written for a value below ten reads back as that value |
| Decimal.NatDigits | app.py:25 | the decimal text of a natural number is non-empty, all digits, and has no leading zero |
| Decimal.IntToString | app.py:25 | `str()` of an integer starts with '-' exactly when it is negative, and is otherwise all digits |
| Decimal.DigitsRoundTrip | app.py:31 | reading back the digits of `n` gives `n` |
| Decimal.NumeralValue | FlightPredictor.java:238 | the value of an optional sign followed by digits: its magnitude is the digits' value, and it is negative only after '-' and positive only without one |
| Decimal.LeadingZeroValue | app.py:31 | a leading zero does not change the value of a digit string |
| Decimal.ZeroPaddedRoundTrip | app.py:31 | any number of zeros before the decimal digits of `n` still read back as `n` |
| FlightPredictor.StatusText | FlightPredictor.java:204 | the cell is "DELAYED" exactly when the verdict is true, and "ON TIME" exactly when it is false |
| FlightPredictor.TableRow | FlightPredictor.java:197-205 | cell 6 is "DELAYED" exactly for a delayed verdict; the other cells are stated by `TableRowCells` |
| FlightPredictor.TableRowCells | FlightPredictor.java:198-203 | cells 0-5 are `flight.get` of flight_no, airline, origin, destination, dep_hour and weather, null exactly when that column is absent |
| FlightPredictor.BuildPayload | FlightPredictor.java:234-239 | a payload exists exactly when dep_hour is present and `parseInt` accepts it; it carries that integer and the four string columns as `get` returns them; otherwise the error is the `NumberFormatException` on the dep_hour value |
| FlightPredictor.PayloadCarriesDecimalHour | FlightPredictor.java:238 | a dep_hour column holding the decimal text of `h` is sent as `h` exactly when `h` fits in 32 bits |
| FlightPredictor.CallPredictionApi | FlightPredictor.java:234-249 | the call throws `NumberFormat` exactly when the payload cannot be built, before the server is asked |
| FlightPredictor.CallUsesServerVerdict | FlightPredictor.java:238-249 | a verdict comes only from the server asked with the flight's payload, and a server failure becomes the call's exception |
| FlightPredictor.Api | FlightPredictor.java:195 | the call the loop makes for each flight is `callPredictionAPI` against the server; what it returns is stated by `CallPredictionApi` and `CallUsesServerVerdict` |
| FlightPredictor.FirstFailure | FlightPredictor.java:194-210 | every flight before the returned index is scored, and the call for the flight at it (if any) throws |
| FlightPredictor.FirstFailureIsFirst | FlightPredictor.java:194-210 | that index is unique |
| FlightPredictor.MakeFilterIsConjunction | FlightPredictor.java:100-118 | a row is shown exactly when it meets the airline test (only when the trimmed text is non-empty, matched untrimmed) and the status test ("All" adds none) |
| FlightPredictor.MakeFilter | FlightPredictor.java:100-118 | the filter `applyFilter` builds; `MakeFilterIsConjunction` states which rows it shows |
| FlightPredictor.Include | FlightPredictor.java:110-117 | whether the sorter shows a row under a filter; stated by `MakeFilterIsConjunction` and `ViewMembership` |
| FlightPredictor.AirlineMatches | FlightPredictor.java:101 | the airline test: the pattern occurs in the airline cell, ignoring ASCII case |
| FlightPredictor.StatusMatches | FlightPredictor.java:105-107 | the status test: the selected status text occurs in the prediction cell |
| FlightPredictor.CellText | FlightPredictor.java:101 | the sorter searches a null airline cell as the empty string |
| FlightPredictor.View | FlightPredictor.java:110-117 | the sorter shows at most the table's rows, each accepted by the filter |
| FlightPredictor.ViewAppend | FlightPredictor.java:110-117 | filtering keeps table order |
| FlightPredictor.ViewMembership | FlightPredictor.java:110-117 | a row is visible exactly when it is in the table and the filter accepts it |
| FlightPredictor.NoCriteriaShowsAll | FlightPredictor.java:116-117 | with a blank airline text and "All", every row is visible, in order |
| FlightPredictor.DelayedViewWithinAll | FlightPredictor.java:104-115 | selecting "DELAYED" never shows a row that "All" hides |
| FlightPredictor.CountDelayed | FlightPredictor.java:142-147 | the delayed count never exceeds the number of visible rows |
| FlightPredictor.CountDelayedExtremes | FlightPredictor.java:142-147 | all visible rows delayed gives count = total; none delayed gives 0 |
| FlightPredictor.StatusCellSearch | FlightPredictor.java:104-107 | on a prediction cell, the status search is equality with the status text |
| FlightPredictor.StatusSelectionSummary | FlightPredictor.java:104-148 | selecting "DELAYED" gives delayed = total; selecting "ON TIME" gives delayed = 0 |
| FlightPredictor.FlightTable.constructor | FlightPredictor.java:51-64 | an empty table, no filter, both labels at 0 |
| FlightPredictor.FlightTable.UpdateSummaryLabels | FlightPredictor.java:139-151 | total = number of visible rows, delayed = visible rows whose cell is "DELAYED", and delayed <= total |
| FlightPredictor.FlightTable.ApplyFilter | FlightPredictor.java:93-121 | installs the filter built from the two criteria, then refreshes both counts for it |
| FlightPredictor.FlightTable.PredictFlights | FlightPredictor.java:185-210 | for any predictor, the table is cleared, then holds one row per scored flight in input order up to the first throwing call; the counter equals the number of rows; the error is that call's |
| FlightPredictor.FlightTable.DoInBackground | FlightPredictor.java:183-212 | an empty file leaves the rows unchanged and reports the read error; otherwise the rows and failure are those of the prediction loop over `readCSV`'s flights, with `callPredictionAPI` against the server as the predictor |
| FlightPredictor.FlightTable.Run | FlightPredictor.java:183-223 | an empty file leaves the rows unchanged and reports the read error; otherwise the rows and failure are those of the prediction loop over `readCSV`'s flights, with `callPredictionAPI` against the server as the predictor; the counts are refreshed in either case |
| PyText.StripStartSkipsSpace | app.py:25-28 | `strip()` starts at the first non-space character, skipping only spaces |
| PyText.IsSpace | app.py:25-28 | the characters `str.isspace()` accepts, the set `strip()` removes: U+0009..U+000D, U+001C..U+0020, U+0085, U+00A0, U+1680, U+2000..U+200A, U+2028, U+2029, U+202F, U+205F and U+3000 |
| PyText.StripEndSkipsSpace | app.py:25-28 | `strip()` ends after the last non-space character, dropping only spaces |
| PyText.StripEnds | app.py:25-28 | `strip()` is empty exactly for all-space text; otherwise it starts and ends with non-space characters |
| PyText.StripKeepsTightText | app.py:25-28 | text with non-space ends is left as it is |
| PyText.StripIdempotent | app.py:25-28 | `strip()` twice is `strip()` once |
| PyText.Strip | app.py:25-28 | `str.strip()`; never longer than the text, and characterised by `StripEnds` and `StripKeepsTightText` |
| PyText.ToStr | app.py:25-28 | `str()` of a JSON value: "None" for null, the decimal text of `IntToString` for an integer, the text itself for a string |
| PyText.ParseIntText | app.py:31 | `int()` of a string succeeds only when the stripped text is non-empty; `ParseIntTextAccepts` says when it succeeds and `ParseIntTextOfNumeral` what value it gives |
| PyText.ParseIntTextAccepts | app.py:30-33 | `int()` of a string succeeds exactly when `strip()` leaves an optional sign and 1 to 4300 digits and the text holds none of U+001C..U+001F; the characters around the numeral are then all whitespace `int()` skips |
| PyText.ParseIntTextIgnoresStrip | app.py:31 | without U+001C..U+001F in the text, `int(s)` equals `int(s.strip())` |
| PyText.ParseIntTextOfNumeral | app.py:31 | text whose stripped form is a signed numeral, with or without a sign or leading zeros, gives the value that numeral denotes when it has at most 4300 digits, and raises otherwise |
| PyText.ParseIntTextOfSpacedHour | app.py:31 | `int()` gives 7 for " 07 " |
| PyText.ParseIntTextOfSignedHour | app.py:31 | `int()` gives 14 for "+14\n" |
| PyText.ToInt | app.py:30-33 | `int()` passes integers through and raises on null, lists and objects |
| PyText.ParseIntTextOfDecimal | app.py:31 | `int()` reads back an integer from its decimal text exactly when that text has at most 4300 digits, and raises otherwise |
| App.MissingFields | app.py:21 | only fields that are absent or null are listed, at most as many as required |
| App.MissingFieldsMembership | app.py:21 | a field is listed exactly when it is required and absent or null |
| App.MissingFieldsAppend | app.py:21 | the list keeps the order of the required fields |
| App.MissingFieldsSingle | app.py:21 | one field is listed exactly when it is missing |
| App.MissingFieldsInOrder | app.py:20-23 | the list is the missing ones of airline, origin, destination, dep_hour, weather, in that order |
| App.NoneMissing | app.py:20-22 | nothing is listed exactly when all five fields are present and not null |
| App.Features | app.py:57 | the feature vector is [airline code, origin code, destination code, dep_hour, weather code] |
| App.JoinNames | app.py:23 | `', '.join` of the missing names, as the "Missing fields: ..." message of `Rejection` and `Predict` carries it |
| App.FieldText | app.py:25-28 | `str(data[field]).strip()`, the label text of a present field |
| App.UnknownMessage | app.py:39-54 | the 400 message "Unknown <field>: <stripped text>" for a label no encoder knows |
| App.WellFormed | app.py:17-54 | the request passes every guard before the model: an object with data, every required field present and not null, an integer dep_hour, and four labels the encoders know |
| App.RequestFeatures | app.py:57 | the feature vector of a well-formed request: the four encoded stripped labels and `int(dep_hour)` in the model's column order |
| App.Fails | app.py:17-63 | the condition each guard tests; `FirstFailingCheckRejects` and `AcceptedIffAllChecksPass` relate the checks to `Predict` |
| App.ModelFails | app.py:57-63 | the classifier raises on the features of a request that passed every guard |
| App.FirstWhere | app.py:17-54 | the position of the first element satisfying a condition, after only elements that do not; none exactly when no element does |
| App.FirstFailing | app.py:17-54 | the first failing check of the list, after only passing ones; none exactly when all pass |
| App.Rejection | app.py:17-63 | a failed check is answered with an error; 500 exactly for an unparsable body and a classifier failure, else 400 |
| App.Predict | app.py:13-63 | a verdict exactly for a well-formed request whose features the classifier accepts, and it is `bool(prediction)`; every other answer is 400 or 500 |
| App.PassedBefore | app.py:17-54 | the checks before position `i` in the handler's order, named one by one |
| App.ReachedLabels | app.py:17-33 | a body past the data, presence and hour checks is a non-empty object with every field and an integer dep_hour |
| App.LabelStage | app.py:36-54 | past the hour check, the first unknown label, in the order airline, origin, destination, weather, is named in a 400 |
| App.ModelStage | app.py:57-63 | a classifier failure on a well-formed request is a 500 carrying its message |
| App.EarlyCheckRejects | app.py:14-33 | an unparsable body, a falsy body, missing fields and a non-integer dep_hour are answered as the handler does when that check fails first |
| App.AirlineCheckRejects | app.py:36-39 | an unknown airline after passing checks gives "Unknown airline: ..." |
| App.OriginCheckRejects | app.py:41-44 | an unknown origin after a known airline gives "Unknown origin: ..." |
| App.DestinationCheckRejects | app.py:46-49 | an unknown destination after known airline and origin gives "Unknown destination: ..." |
| App.WeatherCheckRejects | app.py:51-54 | an unknown weather after three known labels gives "Unknown weather: ..." |
| App.ModelCheckRejects | app.py:57-63 | a classifier failure after every guard passes gives a 500 |
| App.FirstFailingCheckRejects | app.py:14-63 | when some check fails, the answer is the rejection of the first failing one in the handler's order |
| App.LabelsPassed | app.py:36-54 | a body that reaches the label checks and passes all four is well formed |
| App.ModelPassed | app.py:57-60 | a well-formed request that the model check does not reject has features the classifier accepts |
| App.PassingChecksWellFormed | app.py:17-58 | a body that passes every check is well formed and the classifier accepts its features |
| App.AllChecksPassAccepts | app.py:57-60 | when no check fails the answer is `{"delayed": bool(prediction)}` on the feature vector |
| App.AcceptedIffAllChecksPass | app.py:14-63 | the handler answers with a verdict exactly when no check fails |
| Pipeline.RequestBody | FlightPredictor.java:234-239 | the JSON object the client sends, as the service decodes it; stated by `RequestBodyFields` |
| Pipeline.TextField | FlightPredictor.java:235-239 | `JSONObject.put(name, value)` for a string field: the key is present with the value exactly when the value is not null |
| Pipeline.LocalServer | FlightPredictor.java:241-249 | the service's verdict becomes the client's, and an error status becomes the client's exception; stated through `KnownFlightGetsVerdict` and `MissingAirlineThrows` |
| Pipeline.RequestBodyFields | FlightPredictor.java:234-239 | the body has dep_hour as an integer, and each string field exactly when the payload has it, as a string |
| Pipeline.ClientRequestPassesEarlyChecks | app.py:14-33 | a request the client builds always parses, has data and has an integer dep_hour |
| Pipeline.SentColumn | FlightPredictor.java:235-239 | a string column reaches the service as a string exactly when the row has it |
| Pipeline.MissingIsAbsent | app.py:21 | a sent column is reported missing exactly when the row lacks it |
| Pipeline.ClientMissingFields | app.py:20-23 | the fields the service reports missing are exactly the string columns absent from the CSV row, in order |
| Pipeline.KnownFlightGetsVerdict | app.py:57-60 | a flight with an integer dep_hour and four known stripped labels gets the classifier's verdict on its features, or the client's exception when the classifier fails |
| Pipeline.MissingAirlineThrows | app.py:20-23 | a flight without an airline column is refused, so its call throws |

## Left out

- Swing presentation is not modelled: layout, the cell renderer's colours, the file chooser,
  the progress bar and the message dialog. `done()` surfacing the error is the `failure`
  result of `Run`.
- The thread hand-off is not modelled: `SwingWorker`, and `invokeLater` running the
  `addRow` tasks. The appends are taken to happen in order, one per completed flight.
- The progress percentage `(int)((count / (double) total) * 100)` is floating point and is
  not modelled. Only the integer counter is.
- The HTTP exchange and JSON serialisation of `callPredictionAPI` are not modelled. They are
  the `Server` oracle; `Pipeline.LocalServer` connects it to the service model.
  - An error status becomes a client exception.
  - The exact exception text of `HttpURLConnection` is illustrative.
- The airline filter is taken as a literal, ASCII case-insensitive substring search.
  - Regular-expression metacharacters are not modelled, nor is the exception an invalid
    pattern throws.
  - Case folding beyond ASCII is not modelled.
- File reading is not modelled: `FileReader`/`BufferedReader` and `readLine`'s line
  terminators. The input is the sequence of lines. `CSVUtils.main` is not part of this model.
- Flask routing, `joblib` loading and `get_json` parsing are not modelled. A body is a JSON
  object, `null`, or a parse failure.
  - Other top-level JSON values (lists, numbers, strings) are not modelled.
  - As field values, booleans and floats are not modelled. Lists and objects are `Composite`,
    carrying their `str()` text.
- The label encoders are finite maps and `model.predict` is a function parameter. A
  `ValueError` from `transform` is an absent key.
- PyText.ParseIntText: Python's `int()` also accepts underscores between digits and
  non-ASCII digits, which are not modelled.
  - The model does not skip U+001C..U+001F. It converts at most 4300 digits, the default of
    `sys.set_int_max_str_digits`, as CPython 3.11 and later and the 3.10.7, 3.9.14, 3.8.14
    and 3.7.14 patch releases do.
  - Releases before those have no digit limit.
- PyText.ToStr: under the same 4300-digit default, `str()` of an integer with more digits
  raises, but the model writes its text. Such an integer cannot reach the handler, because
  `get_json` already rejects a body that holds one; the `Value` type does not rule it out.
- JavaText.ParseInt: non-ASCII digits, which `Integer.parseInt` also accepts, are not modelled.
- Sorting the table view is not modelled. The view keeps table order.
- `train_model.py` is not part of this model.
- Failures are not isolated per record, and calls are made one at a time: one flight whose
  call throws ends the whole loop, and the rows added so far stay.
