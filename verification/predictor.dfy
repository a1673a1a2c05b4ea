/** Single-request inference (mlops_obesidad/inference/predictor.py): the request becomes a
    one-row frame of raw values, the trained pipeline scores it, and the first decoded label,
    the first probability row and a class-to-probability dict are returned. The pipeline and the
    label encoder are foreign objects; they are abstracted into a scoring function. */
module Predictor {
  import opened Wrappers
  import opened Strings
  import opened Tables
  import opened Dicts
  import opened Schemas

  /** A one-row column holding a string: pandas gives it the object dtype. */
  function TextColumn(name: string, s: string): Column {
    Column(name, Textual, [Str(s)])
  }

  /** A one-row column holding a float. */
  function NumberColumn(name: string, x: real): Column {
    Column(name, NonTextual, [Other(x)])
  }

  /** `request_to_dataframe`: one row, the sixteen columns in the order of the request's fields,
      categorical fields as their wire strings and numeric fields as given. */
  function RequestToDataFrame(r: PredictionRequest): (t: Table)
    ensures t.rows == 1 && Names(t.columns) == RequestFields && Valid(t)
  {
    var t := Table([
      TextColumn("Gender", GenderWire(r.gender)),
      NumberColumn("Age", r.age),
      NumberColumn("Height", r.height),
      NumberColumn("Weight", r.weight),
      TextColumn("family_history_with_overweight", YesNoWire(r.familyHistoryWithOverweight)),
      TextColumn("FAVC", YesNoWire(r.favc)),
      NumberColumn("FCVC", r.fcvc),
      NumberColumn("NCP", r.ncp),
      TextColumn("CAEC", FrequencyWire(r.caec)),
      TextColumn("SMOKE", YesNoWire(r.smoke)),
      NumberColumn("CH2O", r.ch2o),
      TextColumn("SCC", YesNoWire(r.scc)),
      NumberColumn("FAF", r.faf),
      NumberColumn("TUE", r.tue),
      TextColumn("CALC", FrequencyWire(r.alcohol)),
      TextColumn("MTRANS", TransportWire(r.mtrans))
    ], 1);
    RequestFieldsDistinct();
    assert Names(t.columns) == RequestFields;
    t
  }

  /** No two request fields share a name, so the frame has no duplicate column. */
  lemma RequestFieldsDistinct()
    ensures forall i, j | 0 <= i < j < |RequestFields| :: RequestFields[i] != RequestFields[j]
  {
  }

  /** The string in the single cell of column `k`, if it is a text column holding one. */
  function CellText(t: Table, k: nat): Option<string> {
    if k < |t.columns| && t.columns[k].kind == Textual && |t.columns[k].cells| == 1 && t.columns[k].cells[0].Str?
    then Some(t.columns[k].cells[0].s) else None
  }

  /** The number in the single cell of column `k`, if it is a numeric column holding one. */
  function CellNumber(t: Table, k: nat): Option<real> {
    if k < |t.columns| && t.columns[k].kind == NonTextual && |t.columns[k].cells| == 1 && t.columns[k].cells[0].Other?
    then Some(t.columns[k].cells[0].v) else None
  }

  function Decode<T>(s: Option<string>, decode: string -> Option<T>): Option<T> {
    if s.Some? then decode(s.value) else None
  }

  /** Reads a request back from a frame laid out as `request_to_dataframe` lays it out. */
  function DataFrameToRequest(t: Table): Option<PredictionRequest> {
    if Names(t.columns) != RequestFields || t.rows != 1 then None
    else
      var gender := Decode(CellText(t, 0), GenderFromWire);
      var history := Decode(CellText(t, 4), YesNoFromWire);
      var favc := Decode(CellText(t, 5), YesNoFromWire);
      var caec := Decode(CellText(t, 8), FrequencyFromWire);
      var smoke := Decode(CellText(t, 9), YesNoFromWire);
      var scc := Decode(CellText(t, 11), YesNoFromWire);
      var alcohol := Decode(CellText(t, 14), FrequencyFromWire);
      var mtrans := Decode(CellText(t, 15), TransportFromWire);
      var age, height, weight := CellNumber(t, 1), CellNumber(t, 2), CellNumber(t, 3);
      var fcvc, ncp, ch2o := CellNumber(t, 6), CellNumber(t, 7), CellNumber(t, 10);
      var faf, tue := CellNumber(t, 12), CellNumber(t, 13);
      if && gender.Some? && age.Some? && height.Some? && weight.Some? && history.Some? && favc.Some?
         && fcvc.Some? && ncp.Some? && caec.Some? && smoke.Some? && ch2o.Some? && scc.Some?
         && faf.Some? && tue.Some? && alcohol.Some? && mtrans.Some?
      then
        Some(PredictionRequest(gender.value, age.value, height.value, weight.value, history.value,
          favc.value, fcvc.value, ncp.value, caec.value, smoke.value, ch2o.value, scc.value,
          faf.value, tue.value, alcohol.value, mtrans.value))
      else None
  }

  /** The frame loses nothing: the request can be read back from it. */
  lemma RequestRoundTrip(r: PredictionRequest)
    ensures DataFrameToRequest(RequestToDataFrame(r)) == Some(r)
  {
    FrameTextCells(r);
    FrameNumberCells(r);
    WireRoundTrips(r.gender, r.familyHistoryWithOverweight, r.caec, r.mtrans);
    WireRoundTrips(r.gender, r.favc, r.alcohol, r.mtrans);
    WireRoundTrips(r.gender, r.smoke, r.caec, r.mtrans);
    WireRoundTrips(r.gender, r.scc, r.caec, r.mtrans);
  }

  lemma FrameTextCells(r: PredictionRequest)
    ensures var t := RequestToDataFrame(r);
      && CellText(t, 0) == Some(GenderWire(r.gender))
      && CellText(t, 4) == Some(YesNoWire(r.familyHistoryWithOverweight))
      && CellText(t, 5) == Some(YesNoWire(r.favc))
      && CellText(t, 8) == Some(FrequencyWire(r.caec))
      && CellText(t, 9) == Some(YesNoWire(r.smoke))
      && CellText(t, 11) == Some(YesNoWire(r.scc))
      && CellText(t, 14) == Some(FrequencyWire(r.alcohol))
      && CellText(t, 15) == Some(TransportWire(r.mtrans))
  {
  }

  lemma FrameNumberCells(r: PredictionRequest)
    ensures var t := RequestToDataFrame(r);
      && CellNumber(t, 1) == Some(r.age)
      && CellNumber(t, 2) == Some(r.height)
      && CellNumber(t, 3) == Some(r.weight)
      && CellNumber(t, 6) == Some(r.fcvc)
      && CellNumber(t, 7) == Some(r.ncp)
      && CellNumber(t, 10) == Some(r.ch2o)
      && CellNumber(t, 12) == Some(r.faf)
      && CellNumber(t, 13) == Some(r.tue)
  {
  }

  /** What the trained pipeline and the label encoder yield for a frame: either a failure in
      `predict`, `predict_proba` or `inverse_transform`, or the decoded labels, the probability
      matrix and `label_encoder.classes_`. */
  datatype Scoring =
    | ScoringFailed
    | Scored(labels: seq<string>, proba: seq<seq<real>>, classes: seq<string>)

  /** What `get_model()` yields: the exception it raises, or the loaded artifacts. */
  datatype ModelHandle =
    | Unavailable(error: Error)
    | Loaded(score: Table -> Scoring)

  /** The triple `predict_single` returns. */
  datatype Prediction = Prediction(predicted: string, probabilities: seq<real>, byClass: Entries)

  /** `predict_single`. A failure to obtain the model happens before the `try` and propagates
      unchanged; any failure inside it, including indexing an empty result and taking the `max`
      of an empty probability row for the log line, is re-raised as a plain `Exception`. */
  function PredictSingle(model: ModelHandle, request: PredictionRequest): (r: Outcome<Prediction>)
    ensures model.Unavailable? ==> r == Raised(model.error)
    ensures model.Loaded? && r.Raised? ==> r.error == GenericException
  {
    match model
    case Unavailable(e) => Raised(e)
    case Loaded(score) =>
      match score(RequestToDataFrame(request))
      case ScoringFailed => Raised(GenericException)
      case Scored(labels, proba, classes) =>
        if |labels| == 0 || |proba| == 0 || |proba[0]| == 0 then Raised(GenericException)
        else Returned(Prediction(labels[0], proba[0], FromZip(classes, proba[0])))
  }

  /** When `predict_single` returns, the label is the first decoded label, the array is the first
      probability row, and the dict pairs each class with the probability at its position,
      stopping at the shorter of the two; it returns exactly when the model is loaded, scoring
      succeeds and the label list, the matrix and its first row are all non-empty. */
  lemma PredictSingleReturns(model: ModelHandle, request: PredictionRequest)
    ensures var r := PredictSingle(model, request);
      r.Returned? <==>
        && model.Loaded?
        && var s := model.score(RequestToDataFrame(request));
        && s.Scored? && |s.labels| > 0 && |s.proba| > 0 && |s.proba[0]| > 0
    ensures var r := PredictSingle(model, request);
      r.Returned? ==>
        var s := model.score(RequestToDataFrame(request));
        var row := s.proba[0];
        var n := if |s.classes| <= |row| then |s.classes| else |row|;
        && r.value.predicted == s.labels[0]
        && r.value.probabilities == row
        && (forall k :: Get(r.value.byClass, k).Some? <==> k in s.classes[..n])
        && ((forall i, j | 0 <= i < j < n :: s.classes[i] != s.classes[j]) ==>
              forall i | 0 <= i < n :: Get(r.value.byClass, s.classes[i]) == Some(row[i]))
  {
    var r := PredictSingle(model, request);
    if r.Returned? {
      var s := model.score(RequestToDataFrame(request));
      FromZipGet(s.classes, s.proba[0]);
    }
  }
}
