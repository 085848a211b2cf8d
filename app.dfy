/**
 * The `/predict` endpoint of the prediction service: a fixed chain of guards over the
 * decoded request body, then one call of the classifier. The label encoders are finite
 * maps and the classifier is a parameter.
 */
module App {
  import Outcomes
  import opened PyText

  /** What `request.get_json(force=True)` produced. */
  datatype Body =
    | Unparsable(reason: string)            // get_json raised; the handler's catch-all answers 500
    | NullBody                              // the JSON literal `null`
    | Object(data: map<string, Value>)      // a JSON object

  /** The four fitted `LabelEncoder`s, as the label -> code maps `transform` looks up. */
  datatype Encoders = Encoders(
    airline: map<string, int>,
    origin: map<string, int>,
    destination: map<string, int>,
    weather: map<string, int>)

  /** `model.predict` on one feature vector: a class label, or the message of what it raised. */
  type Classifier = seq<int> -> Outcomes.Result<int, string>

  /** The JSON answer and its HTTP status. */
  datatype Response = Ok(delayed: bool) | Err(status: nat, message: string)

  const RequiredFields: seq<string> := ["airline", "origin", "destination", "dep_hour", "weather"]
  const NoDataMessage: string := "No JSON data received"
  const DepHourMessage: string := "dep_hour must be an integer"
  const InternalErrorPrefix: string := "Internal Server Error: "

  /** A field counts as missing when it is absent or null. */
  predicate IsMissing(data: map<string, Value>, field: string) {
    field !in data || data[field] == Null
  }

  /** The list comprehension of missing fields, in the order of `fields`. */
  function MissingFields(fields: seq<string>, data: map<string, Value>): (r: seq<string>)
    ensures |r| <= |fields|
    ensures forall k :: 0 <= k < |r| ==> IsMissing(data, r[k])
  {
    if fields == [] then []
    else (if IsMissing(data, fields[0]) then [fields[0]] else []) + MissingFields(fields[1..], data)
  }

  /** A field is listed exactly when it is required and missing. */
  lemma {:induction false} MissingFieldsMembership(fields: seq<string>, data: map<string, Value>, f: string)
    ensures f in MissingFields(fields, data) <==> f in fields && IsMissing(data, f)
  {
    if fields != [] {
      MissingFieldsMembership(fields[1..], data, f);
      assert fields == [fields[0]] + fields[1..];
    }
  }

  /** The missing fields keep the order of the list they are taken from. */
  lemma {:induction false} MissingFieldsAppend(a: seq<string>, b: seq<string>, data: map<string, Value>)
    ensures MissingFields(a + b, data) == MissingFields(a, data) + MissingFields(b, data)
  {
    if a != [] {
      assert (a + b)[0] == a[0];
      assert (a + b)[1..] == a[1..] + b;
      MissingFieldsAppend(a[1..], b, data);
      var head := if IsMissing(data, a[0]) then [a[0]] else [];
      assert MissingFields(a + b, data) == head + MissingFields(a[1..] + b, data);
      assert MissingFields(a, data) == head + MissingFields(a[1..], data);
    } else {
      assert a + b == b;
    }
  }

  lemma MissingFieldsSingle(field: string, data: map<string, Value>)
    ensures MissingFields([field], data) == if IsMissing(data, field) then [field] else []
  {
    assert [field][1..] == [];
  }

  /** Every missing field is listed, each once, in the order airline, origin, destination, dep_hour, weather. */
  lemma MissingFieldsInOrder(data: map<string, Value>)
    ensures MissingFields(RequiredFields, data)
         == MissingFields(["airline"], data) + MissingFields(["origin"], data)
          + MissingFields(["destination"], data) + MissingFields(["dep_hour"], data)
          + MissingFields(["weather"], data)
  {
    var w: seq<string> := ["weather"];
    var h: seq<string> := ["dep_hour"] + w;
    var d: seq<string> := ["destination"] + h;
    var o: seq<string> := ["origin"] + d;
    assert RequiredFields == ["airline"] + o;
    MissingFieldsAppend(["airline"], o, data);
    MissingFieldsAppend(["origin"], d, data);
    MissingFieldsAppend(["destination"], h, data);
    MissingFieldsAppend(["dep_hour"], w, data);
  }

  /** Nothing is missing exactly when all five fields are present and not null. */
  lemma NoneMissing(data: map<string, Value>)
    ensures MissingFields(RequiredFields, data) == [] <==> AllPresent(data)
  {
    MissingFieldsInOrder(data);
    MissingFieldsSingle("airline", data);
    MissingFieldsSingle("origin", data);
    MissingFieldsSingle("destination", data);
    MissingFieldsSingle("dep_hour", data);
    MissingFieldsSingle("weather", data);
  }

  /** `', '.join(names)`. */
  function JoinNames(names: seq<string>): string {
    if names == [] then ""
    else if |names| == 1 then names[0]
    else names[0] + ", " + JoinNames(names[1..])
  }

  /** `str(data[field]).strip()` for a field that is present. */
  function FieldText(data: map<string, Value>, field: string): string
    requires field in data
  {
    Strip(ToStr(data[field]))
  }

  /** `[[airline_enc, origin_enc, destination_enc, dep_hour, weather_enc]]`, one row. */
  function Features(enc: Encoders, airline: string, origin: string, destination: string, hour: int, weather: string): (fs: seq<int>)
    requires airline in enc.airline && origin in enc.origin
    requires destination in enc.destination && weather in enc.weather
    ensures |fs| == 5 && fs[3] == hour
    ensures fs[0] == enc.airline[airline] && fs[1] == enc.origin[origin]
    ensures fs[2] == enc.destination[destination] && fs[4] == enc.weather[weather]
  {
    [enc.airline[airline], enc.origin[origin], enc.destination[destination], hour, enc.weather[weather]]
  }

  /** The four categorical fields, each with its own encoder. */
  datatype Label = Airline | Origin | Destination | Weather

  /** The request field a label is read from. */
  function Name(l: Label): string {
    match l
    case Airline => "airline"
    case Origin => "origin"
    case Destination => "destination"
    case Weather => "weather"
  }

  /** The 400 message naming a label no encoder knows. */
  function UnknownMessage(l: Label, text: string): string {
    "Unknown " + Name(l) + ": " + text
  }

  /** The guards of `predict`, in the order the handler runs them. */
  datatype Check =
    | ParseCheck | DataCheck | MissingCheck | DepHourCheck | LabelCheck(category: Label) | ModelCheck

  const CheckOrder: seq<Check> := [ParseCheck, DataCheck, MissingCheck, DepHourCheck,
                                   LabelCheck(Airline), LabelCheck(Origin), LabelCheck(Destination),
                                   LabelCheck(Weather), ModelCheck]

  /** Every required field is present and not null. */
  predicate AllPresent(data: map<string, Value>) {
    && !IsMissing(data, "airline") && !IsMissing(data, "origin") && !IsMissing(data, "destination")
    && !IsMissing(data, "dep_hour") && !IsMissing(data, "weather")
  }

  /** The request has every field, an integer dep_hour and four known labels. */
  predicate WellFormed(body: Body, enc: Encoders) {
    && body.Object?
    && AllPresent(body.data)
    && ToInt(body.data["dep_hour"]).Some?
    && FieldText(body.data, "airline") in enc.airline
    && FieldText(body.data, "origin") in enc.origin
    && FieldText(body.data, "destination") in enc.destination
    && FieldText(body.data, "weather") in enc.weather
  }

  /** The feature vector of a well-formed request. */
  function RequestFeatures(body: Body, enc: Encoders): seq<int>
    requires WellFormed(body, enc)
  {
    var data := body.data;
    Features(enc, FieldText(data, "airline"), FieldText(data, "origin"), FieldText(data, "destination"),
             ToInt(data["dep_hour"]).value, FieldText(data, "weather"))
  }

  /** Whether a check, taken on its own, finds fault with the request. */
  predicate Fails(c: Check, body: Body, enc: Encoders, classify: Classifier) {
    match c
    case ParseCheck => body.Unparsable?
    case DataCheck => body.NullBody? || (body.Object? && |body.data| == 0)
    case MissingCheck => body.Object? && !AllPresent(body.data)
    case DepHourCheck =>
      body.Object? && !IsMissing(body.data, "dep_hour") && ToInt(body.data["dep_hour"]).None?
    case LabelCheck(Airline) =>
      body.Object? && !IsMissing(body.data, "airline") && FieldText(body.data, "airline") !in enc.airline
    case LabelCheck(Origin) =>
      body.Object? && !IsMissing(body.data, "origin") && FieldText(body.data, "origin") !in enc.origin
    case LabelCheck(Destination) =>
      body.Object? && !IsMissing(body.data, "destination") && FieldText(body.data, "destination") !in enc.destination
    case LabelCheck(Weather) =>
      body.Object? && !IsMissing(body.data, "weather") && FieldText(body.data, "weather") !in enc.weather
    case ModelCheck => ModelFails(body, enc, classify)
  }

  /** The classifier raises on the features of a request that passed every guard. */
  predicate ModelFails(body: Body, enc: Encoders, classify: Classifier) {
    WellFormed(body, enc) && classify(RequestFeatures(body, enc)).Err?
  }

  /** The position of the first of `xs[from..]` that satisfies `p`, if any. */
  function FirstWhere<T>(xs: seq<T>, from: nat, p: T -> bool): (r: Outcomes.Option<nat>)
    requires from <= |xs|
    ensures r.Some? ==> from <= r.value < |xs| && p(xs[r.value])
    ensures r.Some? ==> forall j :: from <= j < r.value ==> !p(xs[j])
    ensures r.None? <==> forall j :: from <= j < |xs| ==> !p(xs[j])
    decreases |xs| - from
  {
    if from == |xs| then Outcomes.None
    else if p(xs[from]) then Outcomes.Some(from)
    else FirstWhere(xs, from + 1, p)
  }

  /** The position of the first of `checks[from..]` that fails, if any. */
  function FirstFailing(checks: seq<Check>, from: nat, body: Body, enc: Encoders, classify: Classifier): (r: Outcomes.Option<nat>)
    requires from <= |checks|
    ensures r.Some? ==> from <= r.value < |checks| && Fails(checks[r.value], body, enc, classify)
    ensures r.Some? ==> forall j :: from <= j < r.value ==> !Fails(checks[j], body, enc, classify)
    ensures r.None? <==> forall j :: from <= j < |checks| ==> !Fails(checks[j], body, enc, classify)
  {
    FirstWhere(checks, from, c => Fails(c, body, enc, classify))
  }

  /** The error answer of a failed check. */
  function Rejection(c: Check, body: Body, enc: Encoders, classify: Classifier): (r: Response)
    requires Fails(c, body, enc, classify)
    ensures r.Err? && (r.status == 500 <==> c == ParseCheck || c == ModelCheck)
  {
    match c
    case ParseCheck => Err(500, InternalErrorPrefix + body.reason)
    case DataCheck => Err(400, NoDataMessage)
    case MissingCheck => Err(400, "Missing fields: " + JoinNames(MissingFields(RequiredFields, body.data)))
    case DepHourCheck => Err(400, DepHourMessage)
    case LabelCheck(Airline) => Err(400, UnknownMessage(Airline, FieldText(body.data, "airline")))
    case LabelCheck(Origin) => Err(400, UnknownMessage(Origin, FieldText(body.data, "origin")))
    case LabelCheck(Destination) => Err(400, UnknownMessage(Destination, FieldText(body.data, "destination")))
    case LabelCheck(Weather) => Err(400, UnknownMessage(Weather, FieldText(body.data, "weather")))
    case ModelCheck => Err(500, InternalErrorPrefix + classify(RequestFeatures(body, enc)).error)
  }

  /** The `predict` handler. */
  function Predict(body: Body, enc: Encoders, classify: Classifier): (r: Response)
    ensures r.Ok? <==> WellFormed(body, enc) && classify(RequestFeatures(body, enc)).Ok?
    ensures r.Ok? ==> r.delayed == (classify(RequestFeatures(body, enc)).value != 0)
    ensures r.Err? ==> r.status == 400 || r.status == 500
  {
    match body
    case Unparsable(reason) => Err(500, InternalErrorPrefix + reason)
    case NullBody => Err(400, NoDataMessage)
    case Object(data) =>
      if |data| == 0 then Err(400, NoDataMessage)
      else
        var missing := MissingFields(RequiredFields, data);
        NoneMissing(data);
        if missing != [] then Err(400, "Missing fields: " + JoinNames(missing))
        else
          var airline := FieldText(data, "airline");
          var origin := FieldText(data, "origin");
          var destination := FieldText(data, "destination");
          var weather := FieldText(data, "weather");
          match ToInt(data["dep_hour"])
          case None => Err(400, DepHourMessage)
          case Some(hour) =>
            if airline !in enc.airline then Err(400, UnknownMessage(Airline, airline))
            else if origin !in enc.origin then Err(400, UnknownMessage(Origin, origin))
            else if destination !in enc.destination then Err(400, UnknownMessage(Destination, destination))
            else if weather !in enc.weather then Err(400, UnknownMessage(Weather, weather))
            else
              match classify(Features(enc, airline, origin, destination, hour, weather))
              case Ok(prediction) => Ok(prediction != 0)
              case Err(e) => Err(500, InternalErrorPrefix + e)
  }

  /** The checks before position `i` of the handler's order, named one by one. */
  lemma PassedBefore(i: nat, body: Body, enc: Encoders, classify: Classifier)
    requires i <= |CheckOrder|
    requires forall j :: 0 <= j < i ==> !Fails(CheckOrder[j], body, enc, classify)
    ensures i > 0 ==> !Fails(ParseCheck, body, enc, classify)
    ensures i > 1 ==> !Fails(DataCheck, body, enc, classify)
    ensures i > 2 ==> !Fails(MissingCheck, body, enc, classify)
    ensures i > 3 ==> !Fails(DepHourCheck, body, enc, classify)
    ensures i > 4 ==> !Fails(LabelCheck(Airline), body, enc, classify)
    ensures i > 5 ==> !Fails(LabelCheck(Origin), body, enc, classify)
    ensures i > 6 ==> !Fails(LabelCheck(Destination), body, enc, classify)
    ensures i > 7 ==> !Fails(LabelCheck(Weather), body, enc, classify)
    ensures i > 8 ==> !ModelFails(body, enc, classify)
    // The literal below only helps the solver see each position of `CheckOrder`.
    ensures i < |CheckOrder| ==> CheckOrder[i] == [ParseCheck, DataCheck, MissingCheck, DepHourCheck,
                                                   LabelCheck(Airline), LabelCheck(Origin), LabelCheck(Destination),
                                                   LabelCheck(Weather), ModelCheck][i]
  {
    assert CheckOrder[0] == ParseCheck && CheckOrder[1] == DataCheck && CheckOrder[2] == MissingCheck;
    assert CheckOrder[3] == DepHourCheck && CheckOrder[4] == LabelCheck(Airline);
    assert CheckOrder[5] == LabelCheck(Origin) && CheckOrder[6] == LabelCheck(Destination);
    assert CheckOrder[7] == LabelCheck(Weather) && CheckOrder[8] == ModelCheck;
  }

  /** An object that passed the presence and hour checks: what the label checks see. */
  predicate ReachesLabels(body: Body, enc: Encoders, classify: Classifier) {
    && !Fails(ParseCheck, body, enc, classify) && !Fails(DataCheck, body, enc, classify)
    && !Fails(MissingCheck, body, enc, classify) && !Fails(DepHourCheck, body, enc, classify)
  }

  lemma ReachedLabels(body: Body, enc: Encoders, classify: Classifier)
    requires ReachesLabels(body, enc, classify)
    ensures body.Object? && |body.data| > 0 && AllPresent(body.data) && ToInt(body.data["dep_hour"]).Some?
  {
  }

  /** The answer to an object that reached the label checks, label by label. */
  lemma LabelStage(data: map<string, Value>, enc: Encoders, classify: Classifier)
    requires |data| > 0 && AllPresent(data) && ToInt(data["dep_hour"]).Some?
    ensures FieldText(data, "airline") !in enc.airline ==>
              Predict(Object(data), enc, classify) == Err(400, UnknownMessage(Airline, FieldText(data, "airline")))
    ensures FieldText(data, "airline") in enc.airline && FieldText(data, "origin") !in enc.origin ==>
              Predict(Object(data), enc, classify) == Err(400, UnknownMessage(Origin, FieldText(data, "origin")))
    ensures FieldText(data, "airline") in enc.airline && FieldText(data, "origin") in enc.origin
            && FieldText(data, "destination") !in enc.destination ==>
              Predict(Object(data), enc, classify) == Err(400, UnknownMessage(Destination, FieldText(data, "destination")))
    ensures FieldText(data, "airline") in enc.airline && FieldText(data, "origin") in enc.origin
            && FieldText(data, "destination") in enc.destination && FieldText(data, "weather") !in enc.weather ==>
              Predict(Object(data), enc, classify) == Err(400, UnknownMessage(Weather, FieldText(data, "weather")))
  {
    NoneMissing(data);
  }

  /** A well-formed request is answered with whatever the classifier makes of its features. */
  lemma ModelStage(body: Body, enc: Encoders, classify: Classifier)
    requires WellFormed(body, enc)
    ensures classify(RequestFeatures(body, enc)).Err? ==>
              Predict(body, enc, classify) == Err(500, InternalErrorPrefix + classify(RequestFeatures(body, enc)).error)
  {
    NoneMissing(body.data);
  }

  /** Check `i` fails and every check before it passes. */
  predicate FailsFirstAt(i: nat, body: Body, enc: Encoders, classify: Classifier) {
    && i < |CheckOrder| && Fails(CheckOrder[i], body, enc, classify)
    && forall j :: 0 <= j < i ==> !Fails(CheckOrder[j], body, enc, classify)
  }

  /** The parse, data, presence and hour checks reject the request as the handler does. */
  lemma EarlyCheckRejects(i: nat, body: Body, enc: Encoders, classify: Classifier)
    requires i < 4 && FailsFirstAt(i, body, enc, classify)
    ensures Predict(body, enc, classify) == Rejection(CheckOrder[i], body, enc, classify)
  {
    PassedBefore(i, body, enc, classify);
    if body.Object? {
      NoneMissing(body.data);
    }
  }

  /** The label checks reject the request as the handler does, naming the first unknown label. */
  lemma AirlineCheckRejects(body: Body, enc: Encoders, classify: Classifier)
    requires FailsFirstAt(4, body, enc, classify)
    ensures Predict(body, enc, classify) == Rejection(CheckOrder[4], body, enc, classify)
  {
    PassedBefore(4, body, enc, classify);
    ReachedLabels(body, enc, classify);
    var data := body.data;
    assert FieldText(data, "airline") !in enc.airline;
    LabelStage(data, enc, classify);
  }

  lemma OriginCheckRejects(body: Body, enc: Encoders, classify: Classifier)
    requires FailsFirstAt(5, body, enc, classify)
    ensures Predict(body, enc, classify) == Rejection(CheckOrder[5], body, enc, classify)
  {
    PassedBefore(5, body, enc, classify);
    ReachedLabels(body, enc, classify);
    var data := body.data;
    assert FieldText(data, "origin") !in enc.origin;
    LabelStage(data, enc, classify);
  }

  lemma DestinationCheckRejects(body: Body, enc: Encoders, classify: Classifier)
    requires FailsFirstAt(6, body, enc, classify)
    ensures Predict(body, enc, classify) == Rejection(CheckOrder[6], body, enc, classify)
  {
    PassedBefore(6, body, enc, classify);
    ReachedLabels(body, enc, classify);
    var data := body.data;
    assert FieldText(data, "destination") !in enc.destination;
    LabelStage(data, enc, classify);
  }

  lemma WeatherCheckRejects(body: Body, enc: Encoders, classify: Classifier)
    requires FailsFirstAt(7, body, enc, classify)
    ensures Predict(body, enc, classify) == Rejection(CheckOrder[7], body, enc, classify)
  {
    PassedBefore(7, body, enc, classify);
    ReachedLabels(body, enc, classify);
    var data := body.data;
    assert FieldText(data, "weather") !in enc.weather;
    LabelStage(data, enc, classify);
  }

  /** A classifier failure on a well-formed request is answered with 500. */
  lemma ModelCheckRejects(body: Body, enc: Encoders, classify: Classifier)
    requires FailsFirstAt(8, body, enc, classify)
    ensures Predict(body, enc, classify) == Rejection(CheckOrder[8], body, enc, classify)
  {
    PassedBefore(8, body, enc, classify);
    LabelsPassed(body, enc, classify);
    ModelStage(body, enc, classify);
  }

  /** When some check fails, the answer is the rejection of the first one, in the handler's order. */
  lemma FirstFailingCheckRejects(body: Body, enc: Encoders, classify: Classifier)
    requires FirstFailing(CheckOrder, 0, body, enc, classify).Some?
    ensures Predict(body, enc, classify)
         == Rejection(CheckOrder[FirstFailing(CheckOrder, 0, body, enc, classify).value], body, enc, classify)
  {
    var i := FirstFailing(CheckOrder, 0, body, enc, classify).value;
    assert FailsFirstAt(i, body, enc, classify);
    if i < 4 {
      EarlyCheckRejects(i, body, enc, classify);
    } else if i == 4 {
      AirlineCheckRejects(body, enc, classify);
    } else if i == 5 {
      OriginCheckRejects(body, enc, classify);
    } else if i == 6 {
      DestinationCheckRejects(body, enc, classify);
    } else if i == 7 {
      WeatherCheckRejects(body, enc, classify);
    } else {
      ModelCheckRejects(body, enc, classify);
    }
  }

  /** A request that reaches the label checks and passes all four is well formed. */
  lemma LabelsPassed(body: Body, enc: Encoders, classify: Classifier)
    requires ReachesLabels(body, enc, classify)
    requires !Fails(LabelCheck(Airline), body, enc, classify) && !Fails(LabelCheck(Origin), body, enc, classify)
    requires !Fails(LabelCheck(Destination), body, enc, classify) && !Fails(LabelCheck(Weather), body, enc, classify)
    ensures WellFormed(body, enc)
  {
    ReachedLabels(body, enc, classify);
  }

  /** A request that passes every check is well formed and the classifier accepts its features. */
  lemma PassingChecksWellFormed(body: Body, enc: Encoders, classify: Classifier)
    requires forall j :: 0 <= j < |CheckOrder| ==> !Fails(CheckOrder[j], body, enc, classify)
    ensures WellFormed(body, enc)
    ensures classify(RequestFeatures(body, enc)).Ok?
  {
    PassedBefore(|CheckOrder|, body, enc, classify);
    LabelsPassed(body, enc, classify);
    ModelPassed(body, enc, classify);
  }

  /** A well-formed request the model check does not reject has features the classifier accepts. */
  lemma ModelPassed(body: Body, enc: Encoders, classify: Classifier)
    requires WellFormed(body, enc) && !ModelFails(body, enc, classify)
    ensures classify(RequestFeatures(body, enc)).Ok?
  {
    assert !classify(RequestFeatures(body, enc)).Err?;
  }

  /** When every check passes, the request is answered with the classifier's verdict. */
  lemma AllChecksPassAccepts(body: Body, enc: Encoders, classify: Classifier)
    requires FirstFailing(CheckOrder, 0, body, enc, classify).None?
    ensures WellFormed(body, enc) && classify(RequestFeatures(body, enc)).Ok?
    ensures Predict(body, enc, classify) == Ok(classify(RequestFeatures(body, enc)).value != 0)
  {
    PassingChecksWellFormed(body, enc, classify);
  }

  /** The handler answers with a verdict exactly when no check fails. */
  lemma AcceptedIffAllChecksPass(body: Body, enc: Encoders, classify: Classifier)
    ensures Predict(body, enc, classify).Ok? <==> FirstFailing(CheckOrder, 0, body, enc, classify).None?
  {
    if FirstFailing(CheckOrder, 0, body, enc, classify).Some? {
      FirstFailingCheckRejects(body, enc, classify);
    } else {
      AllChecksPassAccepts(body, enc, classify);
    }
  }
}
