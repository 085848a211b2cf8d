/**
 * The Swing client `FlightPredictor`: the prediction run that fills the table
 * (`PredictionWorker.doInBackground` followed by `done`), the request payload of
 * `callPredictionAPI`, the airline/status row filter and the summary counts.
 * The HTTP exchange is an oracle `Server` from payload to verdict.
 */
module FlightPredictor {
  import opened Outcomes
  import opened Decimal
  import opened JavaText
  import CsvUtils

  /** A flight as `readCSV` returns it: column name -> value. */
  type Flight = CsvUtils.Record

  const DelayedText: string := "DELAYED"
  const OnTimeText: string := "ON TIME"

  /** The prediction cell: `delayed ? "DELAYED" : "ON TIME"`. */
  function StatusText(delayed: bool): (s: string)
    ensures s == DelayedText <==> delayed
    ensures s == OnTimeText <==> !delayed
  {
    if delayed then DelayedText else OnTimeText
  }

  /**
   * One table row, columns "Flight No", "Airline", "Origin", "Destination", "Dep Hour",
   * "Weather", "Prediction"; the first six hold `flight.get(...)`, which may be null.
   */
  datatype Row = Row(
    flightNo: Option<string>,
    airline: Option<string>,
    origin: Option<string>,
    destination: Option<string>,
    depHour: Option<string>,
    weather: Option<string>,
    prediction: string)

  /** The row `addRow` appends for a scored flight. */
  function TableRow(flight: Flight, delayed: bool): (r: Row)
    ensures r.prediction == DelayedText <==> delayed
    ensures IsStatusText(r.prediction)
  {
    Row(Get(flight, "flight_no"), Get(flight, "airline"), Get(flight, "origin"),
        Get(flight, "destination"), Get(flight, "dep_hour"), Get(flight, "weather"),
        StatusText(delayed))
  }

  /** Cells 0-5 hold the six columns of the flight, null exactly where a column is absent. */
  lemma TableRowCells(flight: Flight, delayed: bool)
    ensures var r := TableRow(flight, delayed);
      && (r.flightNo.None? <==> "flight_no" !in flight)
      && (r.flightNo.Some? ==> r.flightNo.value == flight["flight_no"])
      && (r.airline.None? <==> "airline" !in flight)
      && (r.airline.Some? ==> r.airline.value == flight["airline"])
      && (r.origin.None? <==> "origin" !in flight)
      && (r.origin.Some? ==> r.origin.value == flight["origin"])
      && (r.destination.None? <==> "destination" !in flight)
      && (r.destination.Some? ==> r.destination.value == flight["destination"])
      && (r.depHour.None? <==> "dep_hour" !in flight)
      && (r.depHour.Some? ==> r.depHour.value == flight["dep_hour"])
      && (r.weather.None? <==> "weather" !in flight)
      && (r.weather.Some? ==> r.weather.value == flight["weather"])
  {
  }

  /** The two texts a prediction cell can hold. */
  predicate IsStatusText(s: string) {
    s == DelayedText || s == OnTimeText
  }

  // ---------------------------------------------------------------- the prediction call

  /**
   * The JSON object `callPredictionAPI` sends. `JSONObject.put` with a null value
   * leaves the key out, so an absent column is an absent field.
   */
  datatype Payload = Payload(
    airline: Option<string>,
    origin: Option<string>,
    destination: Option<string>,
    depHour: int,
    weather: Option<string>)

  /** Why `callPredictionAPI` throws. */
  datatype CallError =
    | NumberFormat(input: Option<string>)  // `Integer.parseInt` of the dep_hour value (null when absent)
    | ServiceFailure(message: string)      // the exchange with the prediction service failed

  /** The remote prediction service, seen from the client: a verdict or a failure. */
  type Server = Payload -> Result<bool, string>

  /** The payload, or the `NumberFormatException` of `Integer.parseInt(flight.get("dep_hour"))`. */
  function BuildPayload(flight: Flight): (r: Result<Payload, CallError>)
    ensures r.Ok? <==> "dep_hour" in flight && ParseInt(flight["dep_hour"]).Some?
    ensures r.Err? ==> r.error == NumberFormat(Get(flight, "dep_hour"))
    ensures r.Ok? ==> r.value.depHour == ParseInt(flight["dep_hour"]).value
    ensures r.Ok? ==> r.value.airline == Get(flight, "airline") && r.value.origin == Get(flight, "origin")
                      && r.value.destination == Get(flight, "destination") && r.value.weather == Get(flight, "weather")
  {
    var hour := Get(flight, "dep_hour");
    if hour.None? then Err(NumberFormat(None))
    else
      match ParseInt(hour.value)
      case None => Err(NumberFormat(hour))
      case Some(h) =>
        Ok(Payload(Get(flight, "airline"), Get(flight, "origin"), Get(flight, "destination"), h,
                   Get(flight, "weather")))
  }

  /** A dep_hour column holding the decimal text of a 32-bit integer is sent as that integer. */
  lemma PayloadCarriesDecimalHour(flight: Flight, hour: int)
    requires "dep_hour" in flight && flight["dep_hour"] == IntToString(hour)
    ensures BuildPayload(flight).Ok? <==> InInt32(hour)
    ensures BuildPayload(flight).Ok? ==> BuildPayload(flight).value.depHour == hour
  {
    ParseIntOfDecimal(hour);
  }

  /**
   * `callPredictionAPI`: the payload is built before anything is sent, so a missing or
   * non-integer dep_hour throws without the server being asked.
   */
  function CallPredictionApi(flight: Flight, server: Server): (r: Result<bool, CallError>)
    ensures r.Err? && r.error.NumberFormat? <==> BuildPayload(flight).Err?
  {
    match BuildPayload(flight)
    case Err(e) => Err(e)
    case Ok(payload) =>
      match server(payload)
      case Ok(delayed) => Ok(delayed)
      case Err(message) => Err(ServiceFailure(message))
  }

  /** A verdict comes only from the server, asked with the flight's payload. */
  lemma CallUsesServerVerdict(flight: Flight, server: Server)
    ensures CallPredictionApi(flight, server).Ok?
        <==> BuildPayload(flight).Ok? && server(BuildPayload(flight).value).Ok?
    ensures CallPredictionApi(flight, server).Ok? ==>
              CallPredictionApi(flight, server).value == server(BuildPayload(flight).value).value
    ensures BuildPayload(flight).Ok? && server(BuildPayload(flight).value).Err? ==>
              CallPredictionApi(flight, server) == Err(ServiceFailure(server(BuildPayload(flight).value).error))
  {
  }

  /** What the prediction loop calls for each flight: `callPredictionAPI`, a verdict or an exception. */
  type Predictor = Flight -> Result<bool, CallError>

  /** `callPredictionAPI` against a given server. */
  function Api(server: Server): Predictor {
    flight => CallPredictionApi(flight, server)
  }

  /**
   * The index of the first flight whose call throws, or the number of flights when none
   * does: the prediction loop stops there.
   */
  function FirstFailure(flights: seq<Flight>, predict: Predictor): (k: nat)
    ensures k <= |flights|
    ensures forall i :: 0 <= i < k ==> predict(flights[i]).Ok?
    ensures k < |flights| ==> predict(flights[k]).Err?
  {
    if flights == [] || predict(flights[0]).Err? then 0
    else 1 + FirstFailure(flights[1..], predict)
  }

  /** The first failing flight is unique: any index with only successes before it and a failure at it (or the end) is it. */
  lemma {:induction false} FirstFailureIsFirst(flights: seq<Flight>, predict: Predictor, k: nat)
    requires k <= |flights|
    requires forall i :: 0 <= i < k ==> predict(flights[i]).Ok?
    requires k < |flights| ==> predict(flights[k]).Err?
    ensures FirstFailure(flights, predict) == k
  {
    if k > 0 {
      assert predict(flights[0]).Ok?;
      forall i | 0 <= i < k - 1 ensures predict(flights[1..][i]).Ok? {
        assert flights[1..][i] == flights[i + 1];
      }
      if k - 1 < |flights[1..]| {
        assert flights[1..][k - 1] == flights[k];
      }
      FirstFailureIsFirst(flights[1..], predict, k - 1);
    }
  }

  // ---------------------------------------------------------------- filter and summary

  /** The entries of the "Filter by Status" drop-down. */
  datatype StatusChoice = All | Delayed | OnTime

  /** The row filter `applyFilter` installs on the sorter. */
  datatype RowFilter =
    | NoFilter                                    // setRowFilter(null)
    | AirlineFilter(pattern: string)              // regexFilter("(?i)" + text, 1)
    | StatusFilter(status: string)                // regexFilter(status, 6)
    | AndFilter(pattern: string, status: string)  // andFilter of both

  /** The sorter reads a null cell as the empty string. */
  function CellText(cell: Option<string>): string {
    if cell.Some? then cell.value else ""
  }

  predicate AirlineMatches(pattern: string, row: Row) {
    ContainsIgnoreCase(CellText(row.airline), pattern)
  }

  predicate StatusMatches(status: string, row: Row) {
    Contains(row.prediction, status)
  }

  /** Whether the sorter shows a row under a filter. */
  predicate Include(f: RowFilter, row: Row) {
    match f
    case NoFilter => true
    case AirlineFilter(p) => AirlineMatches(p, row)
    case StatusFilter(s) => StatusMatches(s, row)
    case AndFilter(p, s) => AirlineMatches(p, row) && StatusMatches(s, row)
  }

  /** The filter `applyFilter` builds from the airline text and the selected status. */
  function MakeFilter(airlineText: string, choice: StatusChoice): RowFilter {
    var airline := Trim(airlineText) != [];
    var status := match choice
      case All => None
      case Delayed => Some(DelayedText)
      case OnTime => Some(OnTimeText);
    if airline && status.Some? then AndFilter(airlineText, status.value)
    else if airline then AirlineFilter(airlineText)
    else if status.Some? then StatusFilter(status.value)
    else NoFilter
  }

  /** The status constraint a drop-down choice stands for. */
  predicate StatusAccepts(choice: StatusChoice, row: Row) {
    match choice
    case All => true
    case Delayed => Contains(row.prediction, DelayedText)
    case OnTime => Contains(row.prediction, OnTimeText)
  }

  /**
   * The filter is the conjunction of the two criteria: the airline text constrains only
   * when its trimmed form is not empty, and "All" adds no constraint.
   */
  lemma MakeFilterIsConjunction(airlineText: string, choice: StatusChoice, row: Row)
    ensures Include(MakeFilter(airlineText, choice), row)
        <==> (Trim(airlineText) != [] ==> AirlineMatches(airlineText, row)) && StatusAccepts(choice, row)
  {
  }

  /** The rows the sorter shows, in table order. */
  function View(rows: seq<Row>, f: RowFilter): (v: seq<Row>)
    ensures |v| <= |rows|
    ensures forall k :: 0 <= k < |v| ==> Include(f, v[k])
  {
    if rows == [] then []
    else
      var last := rows[|rows| - 1];
      View(rows[..|rows| - 1], f) + if Include(f, last) then [last] else []
  }

  /** Filtering keeps table order: it distributes over concatenation. */
  lemma {:induction false} ViewAppend(a: seq<Row>, b: seq<Row>, f: RowFilter)
    ensures View(a + b, f) == View(a, f) + View(b, f)
    decreases |b|
  {
    if b == [] {
      assert a + b == a;
    } else {
      var b' := b[..|b| - 1];
      assert (a + b)[..|a + b| - 1] == a + b';
      ViewAppend(a, b', f);
    }
  }

  /** A row is visible exactly when it is in the table and the filter accepts it. */
  lemma {:induction false} ViewMembership(rows: seq<Row>, f: RowFilter, x: Row)
    ensures x in View(rows, f) <==> x in rows && Include(f, x)
  {
    if rows != [] {
      var prefix := rows[..|rows| - 1];
      ViewMembership(prefix, f, x);
      assert rows == prefix + [rows[|rows| - 1]];
    }
  }

  /** With no criteria every row is visible. */
  lemma {:induction false} NoCriteriaShowsAll(rows: seq<Row>, airlineText: string)
    requires Trim(airlineText) == []
    ensures View(rows, MakeFilter(airlineText, All)) == rows
  {
    if rows != [] {
      NoCriteriaShowsAll(rows[..|rows| - 1], airlineText);
    }
  }

  /** Selecting "DELAYED" never shows a row that "All" would hide. */
  lemma DelayedViewWithinAll(rows: seq<Row>, airlineText: string, x: Row)
    requires x in View(rows, MakeFilter(airlineText, Delayed))
    ensures x in View(rows, MakeFilter(airlineText, All))
  {
    ViewMembership(rows, MakeFilter(airlineText, Delayed), x);
    ViewMembership(rows, MakeFilter(airlineText, All), x);
    MakeFilterIsConjunction(airlineText, Delayed, x);
    MakeFilterIsConjunction(airlineText, All, x);
  }

  /** The visible rows whose prediction cell equals "DELAYED". */
  function CountDelayed(view: seq<Row>): (n: nat)
    ensures n <= |view|
  {
    if view == [] then 0
    else CountDelayed(view[..|view| - 1]) + if view[|view| - 1].prediction == DelayedText then 1 else 0
  }

  /** Every row counts when all are delayed; none counts when none is. */
  lemma {:induction false} CountDelayedExtremes(view: seq<Row>)
    ensures (forall k :: 0 <= k < |view| ==> view[k].prediction == DelayedText) ==> CountDelayed(view) == |view|
    ensures (forall k :: 0 <= k < |view| ==> view[k].prediction != DelayedText) ==> CountDelayed(view) == 0
  {
    if view != [] {
      CountDelayedExtremes(view[..|view| - 1]);
    }
  }

  /** On a status cell, searching for a status text is the same as comparing with it. */
  lemma StatusCellSearch(s: string)
    requires IsStatusText(s)
    ensures Contains(s, DelayedText) <==> s == DelayedText
    ensures Contains(s, OnTimeText) <==> s == OnTimeText
  {
    assert OccursAt(s, s, 0);
    if Contains(s, DelayedText) {
      var i :| 0 <= i <= |s| - |DelayedText| && OccursAt(s, DelayedText, i);
      assert i == 0;
    }
    if Contains(s, OnTimeText) {
      var i :| 0 <= i <= |s| - |OnTimeText| && OccursAt(s, OnTimeText, i);
      assert i == 0;
    }
  }

  predicate ValidRows(rows: seq<Row>) {
    forall k :: 0 <= k < |rows| ==> IsStatusText(rows[k].prediction)
  }

  /** Selecting "DELAYED" makes every visible row delayed; "ON TIME" makes none delayed. */
  lemma StatusSelectionSummary(rows: seq<Row>, airlineText: string)
    requires ValidRows(rows)
    ensures var v := View(rows, MakeFilter(airlineText, Delayed)); CountDelayed(v) == |v|
    ensures CountDelayed(View(rows, MakeFilter(airlineText, OnTime))) == 0
  {
    var d := View(rows, MakeFilter(airlineText, Delayed));
    forall k | 0 <= k < |d| ensures d[k].prediction == DelayedText {
      ViewMembership(rows, MakeFilter(airlineText, Delayed), d[k]);
      MakeFilterIsConjunction(airlineText, Delayed, d[k]);
      StatusCellSearch(d[k].prediction);
    }
    CountDelayedExtremes(d);
    var o := View(rows, MakeFilter(airlineText, OnTime));
    forall k | 0 <= k < |o| ensures o[k].prediction != DelayedText {
      ViewMembership(rows, MakeFilter(airlineText, OnTime), o[k]);
      MakeFilterIsConjunction(airlineText, OnTime, o[k]);
      StatusCellSearch(o[k].prediction);
    }
    CountDelayedExtremes(o);
  }

  /** Rows built by `TableRow` hold a status text in their prediction cell. */
  lemma ScoredRowsValid(rows: seq<Row>, flights: seq<Flight>, predict: Predictor)
    requires |rows| <= |flights|
    requires forall i :: 0 <= i < |rows| ==> predict(flights[i]).Ok?
    requires forall i :: 0 <= i < |rows| ==> rows[i] == TableRow(flights[i], predict(flights[i]).value)
    ensures ValidRows(rows)
  {
    forall k | 0 <= k < |rows| ensures IsStatusText(rows[k].prediction) {
      assert rows[k] == TableRow(flights[k], predict(flights[k]).value);
    }
  }

  // ---------------------------------------------------------------- the window state

  /** Why a prediction run ends early; `done()` shows the message in a dialog. */
  datatype RunFailure =
    | ReadFailure(message: string)     // `readCSV` threw
    | PredictionFailure(error: CallError)  // `callPredictionAPI` threw for one flight

  /**
   * The part of the window the core changes: the table model's rows, the sorter's row
   * filter, and the two summary labels (as the numbers they show).
   */
  class FlightTable {
    var rows: seq<Row>
    var rowFilter: RowFilter
    var totalFlights: nat
    var delayedFlights: nat

    /** Every prediction cell holds one of the two status texts. */
    ghost predicate Valid()
      reads this`rows
    {
      ValidRows(rows)
    }

    /** `initUI`: an empty table, no filter, both labels at 0. */
    constructor ()
      ensures Valid()
      ensures rows == [] && rowFilter == NoFilter && totalFlights == 0 && delayedFlights == 0
    {
      rows := [];
      rowFilter := NoFilter;
      totalFlights := 0;
      delayedFlights := 0;
    }

    /** `updateSummaryLabels`: count the visible rows and the visible delayed ones. */
    method UpdateSummaryLabels()
      modifies this`totalFlights, this`delayedFlights
      ensures totalFlights == |View(rows, rowFilter)|
      ensures delayedFlights == CountDelayed(View(rows, rowFilter))
      ensures delayedFlights <= totalFlights
    {
      var view := View(rows, rowFilter);
      var total := |view|;
      var delayedCount := 0;
      var i := 0;
      while i < total
        invariant i <= total
        invariant delayedCount == CountDelayed(view[..i])
      {
        assert view[..i + 1][..i] == view[..i];
        if view[i].prediction == DelayedText {
          delayedCount := delayedCount + 1;
        }
        i := i + 1;
      }
      assert view[..total] == view;
      totalFlights := total;
      delayedFlights := delayedCount;
    }

    /** `applyFilter`: install the filter for the current criteria, then refresh the labels. */
    method ApplyFilter(airlineText: string, choice: StatusChoice)
      modifies this`rowFilter, this`totalFlights, this`delayedFlights
      ensures rowFilter == MakeFilter(airlineText, choice)
      ensures totalFlights == |View(rows, rowFilter)|
      ensures delayedFlights == CountDelayed(View(rows, rowFilter))
    {
      var airlineSet := Trim(airlineText) != [];
      var statusFilter: Option<string> := None;
      if choice == Delayed {
        statusFilter := Some(DelayedText);
      } else if choice == OnTime {
        statusFilter := Some(OnTimeText);
      }
      if airlineSet && statusFilter.Some? {
        rowFilter := AndFilter(airlineText, statusFilter.value);
      } else if airlineSet {
        rowFilter := AirlineFilter(airlineText);
      } else if statusFilter.Some? {
        rowFilter := StatusFilter(statusFilter.value);
      } else {
        rowFilter := NoFilter;
      }
      UpdateSummaryLabels();
    }

    /**
     * The loop of `doInBackground` once the file is read: clear the table, then for each
     * flight in order call the predictor and append its row, stopping at the first call
     * that throws. `count` is the worker's counter of completed flights.
     */
    method PredictFlights(flights: seq<Flight>, predict: Predictor) returns (failure: Option<CallError>, count: nat)
      modifies this`rows
      ensures count == |rows| == FirstFailure(flights, predict)
      ensures forall i :: 0 <= i < count ==> rows[i] == TableRow(flights[i], predict(flights[i]).value)
      ensures failure.None? <==> count == |flights|
      ensures count < |flights| ==> failure == Some(predict(flights[count]).error)
      ensures Valid()
    {
      rows := [];
      failure, count := None, 0;
      while count < |flights|
        invariant count <= |flights|
        invariant forall i :: 0 <= i < count ==> predict(flights[i]).Ok?
        invariant |rows| == count
        invariant forall i :: 0 <= i < count ==> rows[i] == TableRow(flights[i], predict(flights[i]).value)
      {
        var flight := flights[count];
        var result := predict(flight);
        if result.Err? {
          failure := Some(result.error);
          FirstFailureIsFirst(flights, predict, count);
          ScoredRowsValid(rows, flights, predict);
          return;
        }
        rows := rows + [TableRow(flight, result.value)];
        count := count + 1;
      }
      FirstFailureIsFirst(flights, predict, count);
      ScoredRowsValid(rows, flights, predict);
    }

    /** `doInBackground`: read the file, then the prediction loop; an empty file keeps the rows. */
    method DoInBackground(lines: seq<string>, server: Server) returns (failure: Option<RunFailure>, count: nat)
      requires Valid()
      modifies this`rows
      ensures Valid()
      ensures CsvUtils.ParseCsv(lines).Err? ==>
                failure == Some(ReadFailure(CsvUtils.EmptyFileMessage)) && rows == old(rows) && count == 0
      ensures CsvUtils.ParseCsv(lines).Ok? ==>
                var flights := CsvUtils.ParseCsv(lines).value;
                var k := FirstFailure(flights, Api(server));
                && count == |rows| == k
                && (forall i :: 0 <= i < k ==> rows[i] == TableRow(flights[i], CallPredictionApi(flights[i], server).value))
                && (failure.None? <==> k == |flights|)
                && (k < |flights| ==> failure == Some(PredictionFailure(CallPredictionApi(flights[k], server).error)))
    {
      var read := CsvUtils.ReadCsv(lines);
      if read.Err? {
        failure, count := Some(ReadFailure(read.error)), 0;
      } else {
        var error;
        error, count := PredictFlights(read.value, Api(server));
        assert forall f :: Api(server)(f) == CallPredictionApi(f, server);
        failure := if error.Some? then Some(PredictionFailure(error.value)) else None;
      }
    }

    /**
     * A prediction run over the lines of a file: `doInBackground` (read the file, then
     * the prediction loop) followed by `done` (refresh the labels, surface the error).
     */
    method Run(lines: seq<string>, server: Server) returns (failure: Option<RunFailure>, count: nat)
      requires Valid()
      modifies this`rows, this`totalFlights, this`delayedFlights
      ensures Valid()
      ensures CsvUtils.ParseCsv(lines).Err? ==>
                failure == Some(ReadFailure(CsvUtils.EmptyFileMessage)) && rows == old(rows) && count == 0
      ensures CsvUtils.ParseCsv(lines).Ok? ==>
                var flights := CsvUtils.ParseCsv(lines).value;
                var k := FirstFailure(flights, Api(server));
                && count == |rows| == k
                && (forall i :: 0 <= i < k ==> rows[i] == TableRow(flights[i], CallPredictionApi(flights[i], server).value))
                && (failure.None? <==> k == |flights|)
                && (k < |flights| ==> failure == Some(PredictionFailure(CallPredictionApi(flights[k], server).error)))
      ensures totalFlights == |View(rows, rowFilter)|
      ensures delayedFlights == CountDelayed(View(rows, rowFilter))
    {
      failure, count := DoInBackground(lines, server);
      UpdateSummaryLabels();
    }
  }
}
