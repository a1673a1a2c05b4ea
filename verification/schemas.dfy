/** The request and response shapes of the prediction API (API/schemas.py): the categorical
    values and their wire strings, the declared field bounds, the validation of a JSON body into
    a request, and the bounds a response must satisfy to be built at all. */
module Schemas {
  import opened Wrappers

  datatype Gender = Female | Male
  datatype YesNo = Yes | No
  /** The four answers of both `CAEC` and `CALC`, which declare the same values. */
  datatype Frequency = Never | Sometimes | Frequently | Always
  datatype Transport = PublicTransportation | Walking | Automobile | Motorbike | Bike

  function GenderWire(g: Gender): string {
    match g
    case Female => "Female"
    case Male => "Male"
  }

  function YesNoWire(a: YesNo): string {
    match a
    case Yes => "yes"
    case No => "no"
  }

  function FrequencyWire(f: Frequency): string {
    match f
    case Never => "no"
    case Sometimes => "Sometimes"
    case Frequently => "Frequently"
    case Always => "Always"
  }

  function TransportWire(t: Transport): string {
    match t
    case PublicTransportation => "Public_Transportation"
    case Walking => "Walking"
    case Automobile => "Automobile"
    case Motorbike => "Motorbike"
    case Bike => "Bike"
  }

  /** `Gender(s)`: exactly "Female" and "Male" are accepted, each denoting its member. */
  function GenderFromWire(s: string): (r: Option<Gender>)
    ensures r.Some? <==> s in {"Female", "Male"}
    ensures r.Some? ==> GenderWire(r.value) == s
  {
    if s == "Female" then Some(Female) else if s == "Male" then Some(Male) else None
  }

  /** `YesNo(s)`: exactly "yes" and "no" are accepted. */
  function YesNoFromWire(s: string): (r: Option<YesNo>)
    ensures r.Some? <==> s in {"yes", "no"}
    ensures r.Some? ==> YesNoWire(r.value) == s
  {
    if s == "yes" then Some(Yes) else if s == "no" then Some(No) else None
  }

  /** `CAEC(s)` and `CALC(s)`: exactly "no", "Sometimes", "Frequently" and "Always". */
  function FrequencyFromWire(s: string): (r: Option<Frequency>)
    ensures r.Some? <==> s in {"no", "Sometimes", "Frequently", "Always"}
    ensures r.Some? ==> FrequencyWire(r.value) == s
  {
    if s == "no" then Some(Never)
    else if s == "Sometimes" then Some(Sometimes)
    else if s == "Frequently" then Some(Frequently)
    else if s == "Always" then Some(Always)
    else None
  }

  /** `MTRANS(s)`: exactly the five transport names. */
  function TransportFromWire(s: string): (r: Option<Transport>)
    ensures r.Some? <==> s in {"Public_Transportation", "Walking", "Automobile", "Motorbike", "Bike"}
    ensures r.Some? ==> TransportWire(r.value) == s
  {
    if s == "Public_Transportation" then Some(PublicTransportation)
    else if s == "Walking" then Some(Walking)
    else if s == "Automobile" then Some(Automobile)
    else if s == "Motorbike" then Some(Motorbike)
    else if s == "Bike" then Some(Bike)
    else None
  }

  /** Reading back the wire string of any member gives that member. */
  lemma WireRoundTrips(g: Gender, a: YesNo, f: Frequency, t: Transport)
    ensures GenderFromWire(GenderWire(g)) == Some(g)
    ensures YesNoFromWire(YesNoWire(a)) == Some(a)
    ensures FrequencyFromWire(FrequencyWire(f)) == Some(f)
    ensures TransportFromWire(TransportWire(t)) == Some(t)
  {
  }

  /** `PredictionRequest`, one field per input column of the model. */
  datatype PredictionRequest = PredictionRequest(
    gender: Gender,
    age: real,
    height: real,
    weight: real,
    familyHistoryWithOverweight: YesNo,
    favc: YesNo,
    fcvc: real,
    ncp: real,
    caec: Frequency,
    smoke: YesNo,
    ch2o: real,
    scc: YesNo,
    faf: real,
    tue: real,
    alcohol: Frequency,  // CALC
    mtrans: Transport)

  /** A `Field(ge=..., le=...)` or `Field(gt=..., le=...)` constraint. */
  datatype Bounds = Bounds(low: real, lowExclusive: bool, high: real)

  predicate Within(x: real, b: Bounds) {
    (if b.lowExclusive then b.low < x else b.low <= x) && x <= b.high
  }

  const AgeBounds := Bounds(0.0, false, 120.0)
  const HeightBounds := Bounds(0.0, true, 3.0)
  const WeightBounds := Bounds(0.0, true, 300.0)
  const FcvcBounds := Bounds(1.0, false, 3.0)
  const NcpBounds := Bounds(1.0, false, 4.0)
  const Ch2oBounds := Bounds(1.0, false, 3.0)
  const FafBounds := Bounds(0.0, false, 3.0)
  const TueBounds := Bounds(0.0, false, 2.0)

  /** Every numeric field of the request lies within its declared bounds. */
  predicate ValidRequest(r: PredictionRequest) {
    && Within(r.age, AgeBounds)
    && Within(r.height, HeightBounds)
    && Within(r.weight, WeightBounds)
    && Within(r.fcvc, FcvcBounds)
    && Within(r.ncp, NcpBounds)
    && Within(r.ch2o, Ch2oBounds)
    && Within(r.faf, FafBounds)
    && Within(r.tue, TueBounds)
  }

  /** The bounds in plain terms; in particular a valid request has a positive height, which is
      what makes the BMI division defined. */
  lemma ValidRequestBounds(r: PredictionRequest)
    requires ValidRequest(r)
    ensures 0.0 <= r.age <= 120.0 && 0.0 < r.height <= 3.0 && 0.0 < r.weight <= 300.0
    ensures 1.0 <= r.fcvc <= 3.0 && 1.0 <= r.ncp <= 4.0 && 1.0 <= r.ch2o <= 3.0
    ensures 0.0 <= r.faf <= 3.0 && 0.0 <= r.tue <= 2.0
  {
  }

  /** A JSON value as far as validation is concerned. */
  datatype Json = JNumber(n: real) | JString(s: string) | JOther

  /** The field names of the request, in declaration order. */
  const RequestFields: seq<string> := [
    "Gender", "Age", "Height", "Weight", "family_history_with_overweight", "FAVC", "FCVC", "NCP",
    "CAEC", "SMOKE", "CH2O", "SCC", "FAF", "TUE", "CALC", "MTRANS"
  ]

  /** The outcome of validating a body: the request, or the names of the fields that failed. */
  datatype Validation = Accepted(request: PredictionRequest) | Rejected(fields: set<string>)

  /** A numeric field: present, a number, and within its bounds. */
  function NumberAt(body: map<string, Json>, name: string, b: Bounds): (r: Option<real>)
    ensures r.Some? <==> name in body && body[name].JNumber? && Within(body[name].n, b)
    ensures r.Some? ==> body[name] == JNumber(r.value)
  {
    if name in body && body[name].JNumber? && Within(body[name].n, b) then Some(body[name].n) else None
  }

  /** A categorical field: present, a string, and one of the declared wire values. */
  function EnumAt<T>(body: map<string, Json>, name: string, decode: string -> Option<T>): (r: Option<T>)
    ensures r.Some? <==> name in body && body[name].JString? && decode(body[name].s).Some?
    ensures r.Some? ==> decode(body[name].s) == r
  {
    if name in body && body[name].JString? then decode(body[name].s) else None
  }

  function Failed<T>(name: string, r: Option<T>): set<string> {
    if r.None? then {name} else {}
  }

  /** Every field passes its check. */
  predicate FieldsValid(body: map<string, Json>) {
    var gender := EnumAt(body, "Gender", GenderFromWire);
    var age := NumberAt(body, "Age", AgeBounds);
    var height := NumberAt(body, "Height", HeightBounds);
    var weight := NumberAt(body, "Weight", WeightBounds);
    var history := EnumAt(body, "family_history_with_overweight", YesNoFromWire);
    var favc := EnumAt(body, "FAVC", YesNoFromWire);
    var fcvc := NumberAt(body, "FCVC", FcvcBounds);
    var ncp := NumberAt(body, "NCP", NcpBounds);
    var caec := EnumAt(body, "CAEC", FrequencyFromWire);
    var smoke := EnumAt(body, "SMOKE", YesNoFromWire);
    var ch2o := NumberAt(body, "CH2O", Ch2oBounds);
    var scc := EnumAt(body, "SCC", YesNoFromWire);
    var faf := NumberAt(body, "FAF", FafBounds);
    var tue := NumberAt(body, "TUE", TueBounds);
    var alcohol := EnumAt(body, "CALC", FrequencyFromWire);
    var mtrans := EnumAt(body, "MTRANS", TransportFromWire);
    && gender.Some? && age.Some? && height.Some? && weight.Some? && history.Some? && favc.Some?
    && fcvc.Some? && ncp.Some? && caec.Some? && smoke.Some? && ch2o.Some? && scc.Some?
    && faf.Some? && tue.Some? && alcohol.Some? && mtrans.Some?
  }

  /** The names of the fields that fail their check: missing, of the wrong JSON type, outside
      their bounds, or not one of their wire strings. */
  function FailedFields(body: map<string, Json>): set<string> {
    FailedNumbers(body) + FailedEnums(body)
  }

  function FailedNumbers(body: map<string, Json>): set<string> {
    Failed("Age", NumberAt(body, "Age", AgeBounds)) +
    Failed("Height", NumberAt(body, "Height", HeightBounds)) +
    Failed("Weight", NumberAt(body, "Weight", WeightBounds)) +
    Failed("FCVC", NumberAt(body, "FCVC", FcvcBounds)) +
    Failed("NCP", NumberAt(body, "NCP", NcpBounds)) +
    Failed("CH2O", NumberAt(body, "CH2O", Ch2oBounds)) +
    Failed("FAF", NumberAt(body, "FAF", FafBounds)) +
    Failed("TUE", NumberAt(body, "TUE", TueBounds))
  }

  function FailedEnums(body: map<string, Json>): set<string> {
    Failed("Gender", EnumAt(body, "Gender", GenderFromWire)) +
    Failed("family_history_with_overweight", EnumAt(body, "family_history_with_overweight", YesNoFromWire)) +
    Failed("FAVC", EnumAt(body, "FAVC", YesNoFromWire)) +
    Failed("CAEC", EnumAt(body, "CAEC", FrequencyFromWire)) +
    Failed("SMOKE", EnumAt(body, "SMOKE", YesNoFromWire)) +
    Failed("SCC", EnumAt(body, "SCC", YesNoFromWire)) +
    Failed("CALC", EnumAt(body, "CALC", FrequencyFromWire)) +
    Failed("MTRANS", EnumAt(body, "MTRANS", TransportFromWire))
  }

  /** Validation of a JSON body into a `PredictionRequest`: every field is required, numeric
      fields must be numbers within their bounds, categorical fields one of their wire strings;
      keys that are not fields are ignored. */
  function ParseRequest(body: map<string, Json>): (r: Validation)
    ensures r.Accepted? <==> FieldsValid(body)
    ensures r.Accepted? ==> ValidRequest(r.request)
    ensures r.Rejected? ==> r.fields == FailedFields(body) && r.fields != {}
  {
    var gender := EnumAt(body, "Gender", GenderFromWire);
    var age := NumberAt(body, "Age", AgeBounds);
    var height := NumberAt(body, "Height", HeightBounds);
    var weight := NumberAt(body, "Weight", WeightBounds);
    var history := EnumAt(body, "family_history_with_overweight", YesNoFromWire);
    var favc := EnumAt(body, "FAVC", YesNoFromWire);
    var fcvc := NumberAt(body, "FCVC", FcvcBounds);
    var ncp := NumberAt(body, "NCP", NcpBounds);
    var caec := EnumAt(body, "CAEC", FrequencyFromWire);
    var smoke := EnumAt(body, "SMOKE", YesNoFromWire);
    var ch2o := NumberAt(body, "CH2O", Ch2oBounds);
    var scc := EnumAt(body, "SCC", YesNoFromWire);
    var faf := NumberAt(body, "FAF", FafBounds);
    var tue := NumberAt(body, "TUE", TueBounds);
    var alcohol := EnumAt(body, "CALC", FrequencyFromWire);
    var mtrans := EnumAt(body, "MTRANS", TransportFromWire);
    if FieldsValid(body) then
      Accepted(PredictionRequest(gender.value, age.value, height.value, weight.value, history.value,
        favc.value, fcvc.value, ncp.value, caec.value, smoke.value, ch2o.value, scc.value,
        faf.value, tue.value, alcohol.value, mtrans.value))
    else
      Rejected(FailedFields(body))
  }

  /** The body carries exactly the request's values under the field names. */
  predicate Encodes(body: map<string, Json>, r: PredictionRequest) {
    && "Gender" in body && body["Gender"] == JString(GenderWire(r.gender))
    && "Age" in body && body["Age"] == JNumber(r.age)
    && "Height" in body && body["Height"] == JNumber(r.height)
    && "Weight" in body && body["Weight"] == JNumber(r.weight)
    && "family_history_with_overweight" in body
    && body["family_history_with_overweight"] == JString(YesNoWire(r.familyHistoryWithOverweight))
    && "FAVC" in body && body["FAVC"] == JString(YesNoWire(r.favc))
    && "FCVC" in body && body["FCVC"] == JNumber(r.fcvc)
    && "NCP" in body && body["NCP"] == JNumber(r.ncp)
    && "CAEC" in body && body["CAEC"] == JString(FrequencyWire(r.caec))
    && "SMOKE" in body && body["SMOKE"] == JString(YesNoWire(r.smoke))
    && "CH2O" in body && body["CH2O"] == JNumber(r.ch2o)
    && "SCC" in body && body["SCC"] == JString(YesNoWire(r.scc))
    && "FAF" in body && body["FAF"] == JNumber(r.faf)
    && "TUE" in body && body["TUE"] == JNumber(r.tue)
    && "CALC" in body && body["CALC"] == JString(FrequencyWire(r.alcohol))
    && "MTRANS" in body && body["MTRANS"] == JString(TransportWire(r.mtrans))
  }

  /** A body is accepted as a request exactly when it encodes that request and the request is
      within bounds; whatever else the body holds is ignored. */
  lemma ParseRequestExact(body: map<string, Json>, r: PredictionRequest)
    ensures ParseRequest(body) == Accepted(r) <==> ValidRequest(r) && Encodes(body, r)
  {
    GenderAt(body, "Gender", r.gender);
    NumberAtExact(body, "Age", AgeBounds, r.age);
    NumberAtExact(body, "Height", HeightBounds, r.height);
    NumberAtExact(body, "Weight", WeightBounds, r.weight);
    YesNoAt(body, "family_history_with_overweight", r.familyHistoryWithOverweight);
    YesNoAt(body, "FAVC", r.favc);
    NumberAtExact(body, "FCVC", FcvcBounds, r.fcvc);
    NumberAtExact(body, "NCP", NcpBounds, r.ncp);
    FrequencyAt(body, "CAEC", r.caec);
    YesNoAt(body, "SMOKE", r.smoke);
    NumberAtExact(body, "CH2O", Ch2oBounds, r.ch2o);
    YesNoAt(body, "SCC", r.scc);
    NumberAtExact(body, "FAF", FafBounds, r.faf);
    NumberAtExact(body, "TUE", TueBounds, r.tue);
    FrequencyAt(body, "CALC", r.alcohol);
    TransportAt(body, "MTRANS", r.mtrans);
  }

  lemma NumberAtExact(body: map<string, Json>, name: string, b: Bounds, x: real)
    ensures NumberAt(body, name, b) == Some(x) <==> name in body && body[name] == JNumber(x) && Within(x, b)
  {
  }

  lemma GenderAt(body: map<string, Json>, name: string, g: Gender)
    ensures EnumAt(body, name, GenderFromWire) == Some(g) <==> name in body && body[name] == JString(GenderWire(g))
  {
    WireRoundTrips(g, Yes, Never, Bike);
  }

  lemma YesNoAt(body: map<string, Json>, name: string, a: YesNo)
    ensures EnumAt(body, name, YesNoFromWire) == Some(a) <==> name in body && body[name] == JString(YesNoWire(a))
  {
    WireRoundTrips(Female, a, Never, Bike);
  }

  lemma FrequencyAt(body: map<string, Json>, name: string, f: Frequency)
    ensures EnumAt(body, name, FrequencyFromWire) == Some(f) <==> name in body && body[name] == JString(FrequencyWire(f))
  {
    WireRoundTrips(Female, Yes, f, Bike);
  }

  lemma TransportAt(body: map<string, Json>, name: string, t: Transport)
    ensures EnumAt(body, name, TransportFromWire) == Some(t) <==> name in body && body[name] == JString(TransportWire(t))
  {
    WireRoundTrips(Female, Yes, Never, t);
  }

  /** The JSON body a client sends for a request. */
  function ToJson(r: PredictionRequest): map<string, Json> {
    map[
      "Gender" := JString(GenderWire(r.gender)),
      "Age" := JNumber(r.age),
      "Height" := JNumber(r.height),
      "Weight" := JNumber(r.weight),
      "family_history_with_overweight" := JString(YesNoWire(r.familyHistoryWithOverweight)),
      "FAVC" := JString(YesNoWire(r.favc)),
      "FCVC" := JNumber(r.fcvc),
      "NCP" := JNumber(r.ncp),
      "CAEC" := JString(FrequencyWire(r.caec)),
      "SMOKE" := JString(YesNoWire(r.smoke)),
      "CH2O" := JNumber(r.ch2o),
      "SCC" := JString(YesNoWire(r.scc)),
      "FAF" := JNumber(r.faf),
      "TUE" := JNumber(r.tue),
      "CALC" := JString(FrequencyWire(r.alcohol)),
      "MTRANS" := JString(TransportWire(r.mtrans))
    ]
  }

  /** Serialising a request and validating the body gives the request back exactly when it is
      within bounds. */
  lemma JsonRoundTrip(r: PredictionRequest)
    ensures ParseRequest(ToJson(r)) == Accepted(r) <==> ValidRequest(r)
    ensures !ValidRequest(r) ==> ParseRequest(ToJson(r)).Rejected?
  {
    assert Encodes(ToJson(r), r);
    ParseRequestExact(ToJson(r), r);
  }

  /** Every numeric field that is missing, not a number or outside its bounds is reported by
      name, so the body is rejected. */
  lemma NumberFieldsReported(body: map<string, Json>)
    ensures NumberAt(body, "Age", AgeBounds).None? ==> "Age" in FailedFields(body)
    ensures NumberAt(body, "Height", HeightBounds).None? ==> "Height" in FailedFields(body)
    ensures NumberAt(body, "Weight", WeightBounds).None? ==> "Weight" in FailedFields(body)
    ensures NumberAt(body, "FCVC", FcvcBounds).None? ==> "FCVC" in FailedFields(body)
    ensures NumberAt(body, "NCP", NcpBounds).None? ==> "NCP" in FailedFields(body)
    ensures NumberAt(body, "CH2O", Ch2oBounds).None? ==> "CH2O" in FailedFields(body)
    ensures NumberAt(body, "FAF", FafBounds).None? ==> "FAF" in FailedFields(body)
    ensures NumberAt(body, "TUE", TueBounds).None? ==> "TUE" in FailedFields(body)
  {
  }

  /** Every categorical field that is missing, not a string or not one of its wire strings is
      reported by name, so the body is rejected. */
  lemma EnumFieldsReported(body: map<string, Json>)
    ensures EnumAt(body, "Gender", GenderFromWire).None? ==> "Gender" in FailedFields(body)
    ensures EnumAt(body, "family_history_with_overweight", YesNoFromWire).None? ==> "family_history_with_overweight" in FailedFields(body)
    ensures EnumAt(body, "FAVC", YesNoFromWire).None? ==> "FAVC" in FailedFields(body)
    ensures EnumAt(body, "CAEC", FrequencyFromWire).None? ==> "CAEC" in FailedFields(body)
    ensures EnumAt(body, "SMOKE", YesNoFromWire).None? ==> "SMOKE" in FailedFields(body)
    ensures EnumAt(body, "SCC", YesNoFromWire).None? ==> "SCC" in FailedFields(body)
    ensures EnumAt(body, "CALC", FrequencyFromWire).None? ==> "CALC" in FailedFields(body)
    ensures EnumAt(body, "MTRANS", TransportFromWire).None? ==> "MTRANS" in FailedFields(body)
  {
  }

  /** `PredictionResponse`, without the per-call `prediction_id` and `timestamp`; the
      probabilities are listed in `OBESITY_CLASSES` order. */
  datatype PredictionResponse = PredictionResponse(
    prediction: string,
    probabilities: seq<real>,
    confidence: real,
    modelVersion: string,
    modelId: string,
    processingTimeMs: real)

  /** The declared response bounds: seven probabilities each in [0, 1], a confidence in [0, 1],
      and a processing time that is not negative. */
  predicate ValidResponse(r: PredictionResponse) {
    && |r.probabilities| == 7
    && (forall i | 0 <= i < 7 :: 0.0 <= r.probabilities[i] <= 1.0)
    && 0.0 <= r.confidence <= 1.0
    && r.processingTimeMs >= 0.0
  }

  /** Building the response: pydantic raises a ValidationError (a ValueError) when a bound fails. */
  function MakeResponse(prediction: string, probabilities: seq<real>, confidence: real,
                        modelVersion: string, modelId: string, processingTimeMs: real): (r: Outcome<PredictionResponse>)
    ensures r.Returned? <==> ValidResponse(PredictionResponse(prediction, probabilities, confidence, modelVersion, modelId, processingTimeMs))
    ensures r.Returned? ==> r.value == PredictionResponse(prediction, probabilities, confidence, modelVersion, modelId, processingTimeMs)
    ensures r.Raised? ==> r.error == ValueError
  {
    var response := PredictionResponse(prediction, probabilities, confidence, modelVersion, modelId, processingTimeMs);
    if ValidResponse(response) then Returned(response) else Raised(ValueError)
  }
}
