/** The prediction services of the API (API/services.py): the heuristic predictor that derives a
    distribution from the BMI, and the facade that asks the trained model first and falls back on
    the heuristic whenever anything in the trained path fails. The random noise, the elapsed
    wall-clock time and the trained model are parameters. */
module Services {
  import opened Wrappers
  import opened Classes
  import opened Distributions
  import opened Dicts
  import opened Schemas
  import opened Predictor

  /** `MODEL_VERSION` and `MODEL_ID`. */
  const ModelVersion: string := "1.0.0"
  const ModelId: string := "obesity-classifier-v1"

  /** `weight / height ** 2`. */
  function Bmi(weight: real, height: real): (r: real)
    requires height > 0.0
    ensures r * (height * height) == weight
    ensures weight > 0.0 ==> r > 0.0
  {
    weight / (height * height)
  }

  /** The six BMI ranges the heuristic distinguishes. */
  datatype BmiBucket = Underweight | Normal | Overweight | ObeseI | ObeseII | ObeseIII

  /** Position of a bucket along the BMI axis. */
  function Rank(b: BmiBucket): nat {
    match b
    case Underweight => 0
    case Normal => 1
    case Overweight => 2
    case ObeseI => 3
    case ObeseII => 4
    case ObeseIII => 5
  }

  /** The `if`/`elif` chain on the BMI: half-open ranges, lower bound included. */
  function Bucket(bmi: real): (b: BmiBucket)
    ensures b == Underweight <==> bmi < 18.5
    ensures b == Normal <==> 18.5 <= bmi < 25.0
    ensures b == Overweight <==> 25.0 <= bmi < 30.0
    ensures b == ObeseI <==> 30.0 <= bmi < 35.0
    ensures b == ObeseII <==> 35.0 <= bmi < 40.0
    ensures b == ObeseIII <==> 40.0 <= bmi
  {
    if bmi < 18.5 then Underweight
    else if bmi < 25.0 then Normal
    else if bmi < 30.0 then Overweight
    else if bmi < 35.0 then ObeseI
    else if bmi < 40.0 then ObeseII
    else ObeseIII
  }

  /** A larger BMI never lands in a lower bucket. */
  lemma BucketMonotone(x: real, y: real)
    requires x <= y
    ensures Rank(Bucket(x)) <= Rank(Bucket(y))
  {
  }

  /** The values the branch of a bucket assigns, in `OBESITY_CLASSES` order. */
  function Template(b: BmiBucket): (p: seq<real>)
    ensures |p| == ClassCount
  {
    match b
    case Underweight => [0.7, 0.2, 0.01, 0.01, 0.0, 0.05, 0.03]
    case Normal => [0.05, 0.75, 0.02, 0.01, 0.0, 0.12, 0.05]
    case Overweight => [0.02, 0.15, 0.05, 0.02, 0.01, 0.50, 0.25]
    case ObeseI => [0.0, 0.05, 0.45, 0.10, 0.05, 0.15, 0.20]
    case ObeseII => [0.0, 0.02, 0.20, 0.45, 0.18, 0.05, 0.10]
    case ObeseIII => [0.0, 0.0, 0.10, 0.20, 0.63, 0.02, 0.05]
  }

  /** Every template is a distribution: each value in [0, 1] and a total of exactly 1. */
  lemma TemplateIsDistribution(b: BmiBucket)
    ensures InUnit(Template(b)) && Sum(Template(b)) == 1.0
  {
    var p := Template(b);
    SumSeven(p);
  }

  lemma SumSeven(p: seq<real>)
    requires |p| == 7
    ensures Sum(p) == p[0] + p[1] + p[2] + p[3] + p[4] + p[5] + p[6]
  {
    var s6, s5, s4, s3, s2, s1 := p[6..], p[5..], p[4..], p[3..], p[2..], p[1..];
    assert s6[1..] == [] && Sum(s6) == p[6];
    assert s5[0] == p[5] && s5[1..] == s6 && Sum(s5) == p[5] + Sum(s6);
    assert s4[0] == p[4] && s4[1..] == s5 && Sum(s4) == p[4] + Sum(s5);
    assert s3[0] == p[3] && s3[1..] == s4 && Sum(s3) == p[3] + Sum(s4);
    assert s2[0] == p[2] && s2[1..] == s3 && Sum(s2) == p[2] + Sum(s3);
    assert s1[0] == p[1] && s1[1..] == s2 && Sum(s1) == p[1] + Sum(s2);
    assert Sum(p) == p[0] + Sum(s1);
  }

  /** The class each bucket favours. */
  function Dominant(b: BmiBucket): ObesityClass {
    match b
    case Underweight => InsufficientWeight
    case Normal => NormalWeight
    case Overweight => OverweightLevelI
    case ObeseI => ObesityTypeI
    case ObeseII => ObesityTypeII
    case ObeseIII => ObesityTypeIII
  }

  /** In every template the favoured class holds at least 0.45 and leads every other class by
      at least 0.25, so it is the unique maximum. */
  lemma TemplateMargin(b: BmiBucket)
    ensures var p, k := Template(b), Index(Dominant(b));
      && p[k] >= 0.45
      && (forall j | 0 <= j < ClassCount && j != k :: p[j] + 0.25 <= p[k])
      && ArgMax(p) == k
  {
    var p, k := Template(b), Index(Dominant(b));
    assert forall j | 0 <= j < ClassCount && j != k :: p[j] + 0.25 <= p[k];
    ArgMaxUnique(p, k);
  }

  /** `random.uniform(-0.05, 0.05)`, drawn once per class. */
  const NoiseBound: real := 0.05

  predicate ValidNoise(noise: seq<real>) {
    |noise| == ClassCount && forall i | 0 <= i < |noise| :: -NoiseBound <= noise[i] <= NoiseBound
  }

  /** `max(0.0, min(1.0, p + noise))` on every entry. */
  function Perturb(p: seq<real>, noise: seq<real>): (r: seq<real>)
    requires |noise| == |p|
    ensures |r| == |p| && InUnit(r)
  {
    seq(|p|, i requires 0 <= i < |p| => Clamp01(p[i] + noise[i]))
  }

  /** What `_generate_dummy_probabilities` returns for a BMI and a draw of the noise. */
  function DummyProbabilities(bmi: real, noise: seq<real>): seq<real>
    requires |noise| == ClassCount
  {
    Normalize(Perturb(Template(Bucket(bmi)), noise))
  }

  /** Whatever the noise, the heuristic distribution covers the seven classes, sums to exactly 1,
      stays in [0, 1], and its unique maximum is the class the BMI bucket favours. */
  lemma DummyProbabilitiesFacts(bmi: real, noise: seq<real>)
    requires ValidNoise(noise)
    ensures var p, k := DummyProbabilities(bmi, noise), Index(Dominant(Bucket(bmi)));
      && |p| == ClassCount && Sum(p) == 1.0 && InUnit(p)
      && (forall j | 0 <= j < ClassCount && j != k :: p[j] < p[k])
      && ArgMax(p) == k
  {
    var b := Bucket(bmi);
    var t, k := Template(b), Index(Dominant(b));
    TemplateMargin(b);
    TemplateIsDistribution(b);
    var q := Perturb(t, noise);
    PerturbKeepsLead(t, noise, k);
    EntryAtMostSum(q, k);
    ArgMaxUnique(Normalize(q), k);
  }

  /** An entry ahead of every other by more than twice the noise bound stays strictly ahead, and
      positive, once the noise is added and the entries clamped. */
  lemma PerturbKeepsLead(t: seq<real>, noise: seq<real>, k: nat)
    requires |t| == ClassCount && ValidNoise(noise) && InUnit(t) && k < ClassCount && t[k] >= 0.45
    requires forall j | 0 <= j < ClassCount && j != k :: t[j] + 0.25 <= t[k]
    ensures var q := Perturb(t, noise);
      q[k] > 0.0 && forall j | 0 <= j < ClassCount && j != k :: q[j] < q[k]
  {
    var q := Perturb(t, noise);
    forall j | 0 <= j < ClassCount && j != k
      ensures q[j] < q[k]
    {
      ClampKeepsOrder(t[k] + noise[k], t[j] + noise[j]);
    }
  }

  /** `_generate_dummy_probabilities`: the template of the bucket, each entry perturbed by its
      noise and clamped in a loop over the classes, then normalised. */
  method GenerateDummyProbabilities(request: PredictionRequest, noise: seq<real>) returns (probs: seq<real>)
    requires ValidRequest(request) && ValidNoise(noise)
    ensures probs == DummyProbabilities(Bmi(request.weight, request.height), noise)
  {
    ValidRequestBounds(request);
    var bmi := Bmi(request.weight, request.height);
    var template := Template(Bucket(bmi));
    probs := template;
    var i := 0;
    while i < |probs|
      invariant 0 <= i <= ClassCount && |probs| == ClassCount
      invariant forall j | 0 <= j < i :: probs[j] == Clamp01(template[j] + noise[j])
      invariant forall j | i <= j < ClassCount :: probs[j] == template[j]
    {
      probs := probs[i := Clamp01(probs[i] + noise[i])];
      i := i + 1;
    }
    assert probs == Perturb(template, noise);
    var total := Sum(probs);
    if total > 0.0 {
      probs := Scale(probs, total);
    }
  }

  /** What `dummy_predict` returns: the first class of largest probability, that probability as
      the confidence, and the constants of the service; building the response raises when a
      declared bound fails. */
  function DummyResponse(request: PredictionRequest, noise: seq<real>, elapsedMs: real): (r: Outcome<PredictionResponse>)
    requires ValidRequest(request) && ValidNoise(noise)
    ensures r.Returned? <==> elapsedMs >= 0.0
    ensures r.Raised? ==> r.error == ValueError
  {
    ValidRequestBounds(request);
    var p := DummyProbabilities(Bmi(request.weight, request.height), noise);
    DummyProbabilitiesFacts(Bmi(request.weight, request.height), noise);
    var k := ArgMax(p);
    MakeResponse(Name(ClassAt(k)), p, p[k], ModelVersion, ModelId, elapsedMs)
  }

  /** When the heuristic answers, it predicts the class the BMI bucket favours, with that class's
      probability as the confidence, which is the largest of the seven, and carries the model
      version and identifier. */
  lemma DummyResponseFacts(request: PredictionRequest, noise: seq<real>, elapsedMs: real)
    requires ValidRequest(request) && ValidNoise(noise)
    ensures var r := DummyResponse(request, noise, elapsedMs);
      r.Returned? ==>
        var c := Dominant(Bucket(Bmi(request.weight, request.height)));
        && r.value.prediction == Name(c)
        && r.value.prediction in ObesityClasses
        && r.value.probabilities == DummyProbabilities(Bmi(request.weight, request.height), noise)
        && r.value.confidence == r.value.probabilities[Index(c)]
        && (forall j | 0 <= j < ClassCount :: r.value.probabilities[j] <= r.value.confidence)
        && Sum(r.value.probabilities) == 1.0
        && r.value.modelVersion == "1.0.0" && r.value.modelId == "obesity-classifier-v1"
  {
    ValidRequestBounds(request);
    var bmi := Bmi(request.weight, request.height);
    DummyProbabilitiesFacts(bmi, noise);
    var c := Dominant(Bucket(bmi));
    IndexInjective(ClassAt(Index(c)), c);
  }

  /** `dummy_predict`. */
  method DummyPredict(request: PredictionRequest, noise: seq<real>, elapsedMs: real) returns (r: Outcome<PredictionResponse>)
    requires ValidRequest(request) && ValidNoise(noise)
    ensures r == DummyResponse(request, noise, elapsedMs)
  {
    var probabilities := GenerateDummyProbabilities(request, noise);
    DummyProbabilitiesFacts(Bmi(request.weight, request.height), noise);
    var prediction := ArgMax(probabilities);
    var confidence := probabilities[prediction];
    r := MakeResponse(Name(ClassAt(prediction)), probabilities, confidence, ModelVersion, ModelId, elapsedMs);
  }

  /** `{cls: 0.0 for cls in OBESITY_CLASSES}`. */
  function ZeroFilled(): (d: Entries)
    ensures Keys(d) == ObesityClasses && DistinctKeys(d)
    ensures forall i | 0 <= i < |d| :: d[i].1 == 0.0
  {
    NamesDistinct();
    seq(ClassCount, i requires 0 <= i < ClassCount => (ObesityClasses[i], 0.0))
  }

  /** The complete distribution: a class the model reports keeps the model's value, any other
      class of `OBESITY_CLASSES` gets 0.0, and keys the model reports beyond the seven are kept. */
  lemma CompleteGet(d: Entries, k: string)
    ensures Get(Update(ZeroFilled(), d), k) ==
      if k in Keys(d) then Get(d, k) else if k in ObesityClasses then Some(0.0) else None
  {
    GetUpdate(ZeroFilled(), d, k);
    var z := ZeroFilled();
    if k !in Keys(d) && k in ObesityClasses {
      var i :| 0 <= i < |z| && z[i].0 == k;
      GetDistinct(z, i);
    }
  }

  /** The zero-fill followed by `complete_probabilities.update(probabilities_dict)`, pair by pair. */
  method CompleteProbabilities(d: Entries) returns (complete: Entries)
    ensures complete == Update(ZeroFilled(), d)
    ensures DistinctKeys(complete)
    ensures forall name | name in ObesityClasses :: Get(complete, name).Some?
  {
    complete := ZeroFilled();
    var i := 0;
    while i < |d|
      invariant 0 <= i <= |d|
      invariant complete == Update(ZeroFilled(), d[..i])
    {
      assert d[..i + 1][..i] == d[..i];
      complete := Put(complete, d[i].0, d[i].1);
      i := i + 1;
    }
    assert d[..|d|] == d;
    forall name | name in ObesityClasses
      ensures Get(complete, name).Some?
    {
      CompleteGet(d, name);
    }
  }

  /** `PredictionProbabilities(**complete_probabilities)`: the seven fields read by name in
      `OBESITY_CLASSES` order; other keys are ignored. */
  function ClassProbabilities(complete: Entries): (p: seq<real>)
    requires forall name | name in ObesityClasses :: Get(complete, name).Some?
    ensures |p| == ClassCount
    ensures forall i | 0 <= i < ClassCount :: Get(complete, ObesityClasses[i]) == Some(p[i])
  {
    seq(ClassCount, i requires 0 <= i < ClassCount => Get(complete, ObesityClasses[i]).value)
  }

  /** The body of the `try` in `real_predict`: the trained prediction, the confidence as the
      largest value of the model's dict (`max` raises ValueError on an empty one), the zero-filled
      distribution, and the response, whose construction raises when a bound fails. */
  function TrainedResponse(model: ModelHandle, request: PredictionRequest, elapsedMs: real): (r: Outcome<PredictionResponse>)
    ensures var p := PredictSingle(model, request);
      && (p.Raised? ==> r == Raised(p.error))
      && (p.Returned? && p.value.byClass == [] ==> r == Raised(ValueError))
      && (r.Raised? && p.Returned? ==> r.error == ValueError)
      && (r.Returned? ==> p.Returned? && r.value.prediction == p.value.predicted && ValidResponse(r.value))
  {
    match PredictSingle(model, request)
    case Raised(e) => Raised(e)
    case Returned(prediction) =>
      match MaxValue(prediction.byClass)
      case None => Raised(ValueError)
      case Some(confidence) =>
        var complete := Update(ZeroFilled(), prediction.byClass);
        forall name | name in ObesityClasses ensures Get(complete, name).Some? {
          CompleteGet(prediction.byClass, name);
        }
        MakeResponse(prediction.predicted, ClassProbabilities(complete), confidence, ModelVersion, ModelId, elapsedMs)
  }

  /** What `real_predict` returns: the trained response, or, when anything in the trained path
      raised (a `RuntimeError` or any other exception), the heuristic response. An answer always
      satisfies the response bounds, and the facade raises only when the heuristic's own response
      is invalid. */
  function RealResponse(model: ModelHandle, request: PredictionRequest, noise: seq<real>,
                        elapsedMs: real, fallbackElapsedMs: real): (r: Outcome<PredictionResponse>)
    requires ValidRequest(request) && ValidNoise(noise)
    ensures r.Returned? ==> ValidResponse(r.value)
    ensures r.Raised? ==> r.error == ValueError && fallbackElapsedMs < 0.0
  {
    var trained := TrainedResponse(model, request, elapsedMs);
    if trained.Returned? then trained else DummyResponse(request, noise, fallbackElapsedMs)
  }

  /** No exception from the trained path escapes: when it fails, the answer is exactly the
      heuristic one. */
  lemma RealPredictFallback(model: ModelHandle, request: PredictionRequest, noise: seq<real>,
                            elapsedMs: real, fallbackElapsedMs: real)
    requires ValidRequest(request) && ValidNoise(noise)
    ensures TrainedResponse(model, request, elapsedMs).Raised? ==>
      RealResponse(model, request, noise, elapsedMs, fallbackElapsedMs) == DummyResponse(request, noise, fallbackElapsedMs)
    ensures model.Unavailable? ==>
      RealResponse(model, request, noise, elapsedMs, fallbackElapsedMs) == DummyResponse(request, noise, fallbackElapsedMs)
  {
  }

  /** A trained answer reports the model's label and, for each of the seven classes, the model's
      value or 0.0 when the model has none; its confidence is the largest value the model
      reported; every response, trained or not, satisfies the declared bounds and carries the
      model version and identifier. */
  lemma RealPredictFacts(model: ModelHandle, request: PredictionRequest, noise: seq<real>,
                         elapsedMs: real, fallbackElapsedMs: real)
    requires ValidRequest(request) && ValidNoise(noise)
    ensures var t := TrainedResponse(model, request, elapsedMs);
      t.Returned? ==>
        var prediction := PredictSingle(model, request).value;
        && PredictSingle(model, request).Returned?
        && t.value.prediction == prediction.predicted
        && (forall i | 0 <= i < ClassCount ::
              t.value.probabilities[i] ==
                if ObesityClasses[i] in Keys(prediction.byClass) then Get(prediction.byClass, ObesityClasses[i]).value else 0.0)
        && (exists i | 0 <= i < |prediction.byClass| :: prediction.byClass[i].1 == t.value.confidence)
        && (forall i | 0 <= i < |prediction.byClass| :: prediction.byClass[i].1 <= t.value.confidence)
    ensures var r := RealResponse(model, request, noise, elapsedMs, fallbackElapsedMs);
      r.Returned? ==>
        && ValidResponse(r.value)
        && r.value.modelVersion == "1.0.0" && r.value.modelId == "obesity-classifier-v1"
  {
    var t := TrainedResponse(model, request, elapsedMs);
    if t.Returned? {
      var prediction := PredictSingle(model, request).value;
      forall i | 0 <= i < ClassCount
        ensures t.value.probabilities[i] ==
          if ObesityClasses[i] in Keys(prediction.byClass) then Get(prediction.byClass, ObesityClasses[i]).value else 0.0
      {
        CompleteGet(prediction.byClass, ObesityClasses[i]);
      }
    }
    DummyResponseFacts(request, noise, fallbackElapsedMs);
  }

  /** `real_predict`: the trained path step by step, and `dummy_predict` in both handlers. */
  method RealPredict(model: ModelHandle, request: PredictionRequest, noise: seq<real>,
                     elapsedMs: real, fallbackElapsedMs: real) returns (r: Outcome<PredictionResponse>)
    requires ValidRequest(request) && ValidNoise(noise)
    ensures r == RealResponse(model, request, noise, elapsedMs, fallbackElapsedMs)
  {
    var predicted := PredictSingle(model, request);
    if predicted.Raised? {
      r := DummyPredict(request, noise, fallbackElapsedMs);
      return;
    }
    var confidence := MaxValue(predicted.value.byClass);
    if confidence.None? {
      r := DummyPredict(request, noise, fallbackElapsedMs);
      return;
    }
    var complete := CompleteProbabilities(predicted.value.byClass);
    r := MakeResponse(predicted.value.predicted, ClassProbabilities(complete), confidence.value,
                      ModelVersion, ModelId, elapsedMs);
    if r.Raised? {
      r := DummyPredict(request, noise, fallbackElapsedMs);
    }
  }
}
