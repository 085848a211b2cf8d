/**
 * The client and the service together: the JSON object `callPredictionAPI` sends is
 * the body `predict` decodes, and the service's answer becomes the client's verdict or
 * the `IOException` `HttpURLConnection` throws for an error status.
 */
module Pipeline {
  import opened Outcomes
  import opened Decimal
  import opened PyText
  import JavaText
  import FlightPredictor
  import App

  const PredictUrl: string := "http://localhost:5000/predict"

  /** A string field of the JSON object; `JSONObject.put(name, null)` leaves it out. */
  function TextField(name: string, value: Option<string>): map<string, Value> {
    if value.Some? then map[name := Str(value.value)] else map[]
  }

  /** The request body as the service decodes it: strings stay strings, dep_hour is a JSON integer. */
  function RequestBody(p: FlightPredictor.Payload): App.Body {
    App.Object(TextField("airline", p.airline) + TextField("origin", p.origin)
               + TextField("destination", p.destination) + map["dep_hour" := Int(p.depHour)]
               + TextField("weather", p.weather))
  }

  /** Each string field is present exactly when the payload has it; dep_hour is always there. */
  lemma RequestBodyFields(p: FlightPredictor.Payload)
    ensures var data := RequestBody(p).data;
            && ("dep_hour" in data && data["dep_hour"] == Int(p.depHour))
            && (p.airline.Some? <==> "airline" in data) && (p.airline.Some? ==> data["airline"] == Str(p.airline.value))
            && (p.origin.Some? <==> "origin" in data) && (p.origin.Some? ==> data["origin"] == Str(p.origin.value))
            && (p.destination.Some? <==> "destination" in data)
            && (p.destination.Some? ==> data["destination"] == Str(p.destination.value))
            && (p.weather.Some? <==> "weather" in data) && (p.weather.Some? ==> data["weather"] == Str(p.weather.value))
  {
    assert "dep_hour" != "weather";
    assert "airline" != "origin" && "airline" != "destination" && "airline" != "dep_hour" && "airline" != "weather";
    assert "origin" != "destination" && "origin" != "dep_hour" && "origin" != "weather";
    assert "destination" != "dep_hour" && "destination" != "weather";
    var a := TextField("airline", p.airline);
    var ao := a + TextField("origin", p.origin);
    var aod := ao + TextField("destination", p.destination);
    var aodh := aod + map["dep_hour" := Int(p.depHour)];
    assert (p.airline.Some? <==> "airline" in ao) && (p.airline.Some? ==> ao["airline"] == Str(p.airline.value));
    assert (p.airline.Some? <==> "airline" in aod) && (p.airline.Some? ==> aod["airline"] == Str(p.airline.value));
    assert (p.origin.Some? <==> "origin" in aod) && (p.origin.Some? ==> aod["origin"] == Str(p.origin.value));
    assert "weather" !in aodh;
  }

  /** The service on localhost: an error status becomes the client's exception. */
  function LocalServer(enc: App.Encoders, classify: App.Classifier): FlightPredictor.Server {
    p =>
      match App.Predict(RequestBody(p), enc, classify)
      case Ok(delayed) => Ok(delayed)
      case Err(status, _) =>
        Err("Server returned HTTP response code: " + IntToString(status) + " for URL: " + PredictUrl)
  }

  /** `[name]` when the flight has no such column, else nothing. */
  function Absent(flight: FlightPredictor.Flight, name: string): seq<string> {
    if name in flight then [] else [name]
  }

  /** A request the client builds always has data and an integer dep_hour. */
  lemma ClientRequestPassesEarlyChecks(flight: FlightPredictor.Flight, enc: App.Encoders, classify: App.Classifier)
    requires FlightPredictor.BuildPayload(flight).Ok?
    ensures var body := RequestBody(FlightPredictor.BuildPayload(flight).value);
            && !App.Fails(App.ParseCheck, body, enc, classify)
            && !App.Fails(App.DataCheck, body, enc, classify)
            && !App.Fails(App.DepHourCheck, body, enc, classify)
  {
    RequestBodyFields(FlightPredictor.BuildPayload(flight).value);
  }

  /** A string column of the row reaches the service as a string, and only a column the row has. */
  lemma SentColumn(flight: FlightPredictor.Flight, name: string)
    requires FlightPredictor.BuildPayload(flight).Ok?
    requires name == "airline" || name == "origin" || name == "destination" || name == "weather"
    ensures var data := RequestBody(FlightPredictor.BuildPayload(flight).value).data;
            && (name in data <==> name in flight)
            && (name in flight ==> data[name] == Str(flight[name]))
  {
    RequestBodyFields(FlightPredictor.BuildPayload(flight).value);
  }

  /** A sent column is reported missing exactly when the row lacks it. */
  lemma MissingIsAbsent(flight: FlightPredictor.Flight, data: map<string, Value>, name: string)
    requires name in data <==> name in flight
    requires name in data ==> data[name] != Null
    ensures App.MissingFields([name], data) == Absent(flight, name)
  {
    App.MissingFieldsSingle(name, data);
  }

  /** The fields the service reports missing are exactly the string columns absent from the CSV row. */
  lemma ClientMissingFields(flight: FlightPredictor.Flight)
    requires FlightPredictor.BuildPayload(flight).Ok?
    ensures App.MissingFields(App.RequiredFields, RequestBody(FlightPredictor.BuildPayload(flight).value).data)
            == Absent(flight, "airline") + Absent(flight, "origin") + Absent(flight, "destination")
               + Absent(flight, "weather")
  {
    var p := FlightPredictor.BuildPayload(flight).value;
    var data := RequestBody(p).data;
    RequestBodyFields(p);
    App.MissingFieldsInOrder(data);
    SentColumn(flight, "airline");
    MissingIsAbsent(flight, data, "airline");
    SentColumn(flight, "origin");
    MissingIsAbsent(flight, data, "origin");
    SentColumn(flight, "destination");
    MissingIsAbsent(flight, data, "destination");
    SentColumn(flight, "weather");
    MissingIsAbsent(flight, data, "weather");
    App.MissingFieldsSingle("dep_hour", data);
    assert App.MissingFields(["dep_hour"], data) == [];
  }

  /** The label a service lookup uses for a column the client sent. */
  function Label(flight: FlightPredictor.Flight, name: string): string
    requires name in flight
  {
    Strip(flight[name])
  }

  /**
   * A flight with an integer dep_hour and four columns whose stripped values the encoders
   * know gets, through the local service, the classifier's verdict on the feature vector
   * [airline, origin, destination, dep_hour, weather].
   */
  lemma KnownFlightGetsVerdict(flight: FlightPredictor.Flight, enc: App.Encoders, classify: App.Classifier)
    requires FlightPredictor.BuildPayload(flight).Ok?
    requires "airline" in flight && "origin" in flight && "destination" in flight && "weather" in flight
    requires Label(flight, "airline") in enc.airline && Label(flight, "origin") in enc.origin
    requires Label(flight, "destination") in enc.destination && Label(flight, "weather") in enc.weather
    ensures var features := App.Features(enc, Label(flight, "airline"), Label(flight, "origin"),
                                         Label(flight, "destination"),
                                         JavaText.ParseInt(flight["dep_hour"]).value, Label(flight, "weather"));
            && (classify(features).Ok? ==>
                 FlightPredictor.CallPredictionApi(flight, LocalServer(enc, classify)) == Ok(classify(features).value != 0))
            && (classify(features).Err? ==>
                 FlightPredictor.CallPredictionApi(flight, LocalServer(enc, classify)).Err?)
  {
    var p := FlightPredictor.BuildPayload(flight).value;
    var body := RequestBody(p);
    RequestBodyFields(p);
    ClientMissingFields(flight);
    App.NoneMissing(body.data);
    assert App.WellFormed(body, enc);
    assert App.RequestFeatures(body, enc)
        == App.Features(enc, Label(flight, "airline"), Label(flight, "origin"), Label(flight, "destination"),
                        JavaText.ParseInt(flight["dep_hour"]).value, Label(flight, "weather"));
    FlightPredictor.CallUsesServerVerdict(flight, LocalServer(enc, classify));
  }

  /** A flight without an airline column is refused by the service, so its call throws. */
  lemma MissingAirlineThrows(flight: FlightPredictor.Flight, enc: App.Encoders, classify: App.Classifier)
    requires FlightPredictor.BuildPayload(flight).Ok? && "airline" !in flight
    ensures FlightPredictor.CallPredictionApi(flight, LocalServer(enc, classify)).Err?
  {
    var body := RequestBody(FlightPredictor.BuildPayload(flight).value);
    ClientRequestPassesEarlyChecks(flight, enc, classify);
    ClientMissingFields(flight);
    FlightPredictor.CallUsesServerVerdict(flight, LocalServer(enc, classify));
  }
}
