/** The linear model behind the machine-learning detector
    (pkg/mlmodel/model_loader.go): loading, prediction and the threshold
    setter. The lock around the fields is concurrency and is not modelled;
    reading and JSON decoding are oracles; the clock is a parameter. */
module MlModel {
  import opened Outcomes
  import opened Text

  /** The decoded model file. */
  datatype ModelData = ModelData(weights: seq<real>, threshold: real, featureCount: int)

  /** A loaded model; `lastUpdate` is the instant it was loaded, as an integer. */
  datatype Model = Model(
    path: string,
    lastUpdate: int,
    featureCount: int,
    data: ModelData,
    threshold: real)

  /** The product of the first `|features|` weights with the features,
      accumulated left to right as the prediction loop does. */
  function Dot(features: seq<real>, weights: seq<real>): real
    requires |features| <= |weights|
    decreases |features|
  {
    if |features| == 0 then 0.0
    else
      var n := |features| - 1;
      Dot(features[..n], weights) + features[n] * weights[n]
  }

  /** Normalisation of a raw score into [0, 1]. */
  function Clamp01(x: real): (r: real)
    ensures 0.0 <= r <= 1.0
    ensures 0.0 <= x <= 1.0 ==> r == x
    ensures x > 1.0 ==> r == 1.0
    ensures x < 0.0 ==> r == 0.0
  {
    if x > 1.0 then 1.0 else if x < 0.0 then 0.0 else x
  }

  /** The error for a feature vector of the wrong length. */
  function CountMismatch(expected: int, got: int): string {
    "invalid feature count: expected " + IntToString(expected) + ", got " + IntToString(got)
  }

  /** A model whose weights cover its declared feature count: the
      prediction loop indexes the weights with every feature position.
      Only a vector of the declared length reaches that loop, so a model
      that is not usable still answers every other vector. */
  predicate Usable(m: Model) {
    m.featureCount <= |m.data.weights|
  }

  /** What `Predict` answers: an error for a vector whose length is not
      the declared feature count, otherwise the clamped dot product. */
  function Prediction(m: Model, features: seq<real>): (r: Result<real>)
    requires |features| == m.featureCount ==> Usable(m)
    ensures r.Err? <==> |features| != m.featureCount
    ensures r.Err? ==> r.message == CountMismatch(m.featureCount, |features|)
    ensures r.Ok? ==> 0.0 <= r.value <= 1.0
    ensures r.Ok? ==> r.value == Clamp01(Dot(features, m.data.weights))
  {
    if |features| != m.featureCount then Err(CountMismatch(m.featureCount, |features|))
    else Ok(Clamp01(Dot(features, m.data.weights)))
  }

  /** `Predict`: the loop over the features, accumulating
      feature × weight, then the clamp. */
  method Predict(m: Model, features: seq<real>) returns (r: Result<real>)
    requires |features| == m.featureCount ==> Usable(m)
    ensures r.Err? <==> |features| != m.featureCount
    ensures r.Ok? ==> 0.0 <= r.value <= 1.0
    ensures r.Ok? && 0.0 <= Dot(features, m.data.weights) <= 1.0 ==> r.value == Dot(features, m.data.weights)
    ensures r == Prediction(m, features)
  {
    if |features| != m.featureCount {
      return Err(CountMismatch(m.featureCount, |features|));
    }
    var score := 0.0;
    var i := 0;
    while i < |features|
      invariant 0 <= i <= |features|
      invariant score == Dot(features[..i], m.data.weights)
    {
      assert features[..i + 1][..i] == features[..i];
      score := score + features[i] * m.data.weights[i];
      i := i + 1;
    }
    assert features[..i] == features;
    if score > 1.0 {
      score := 1.0;
    } else if score < 0.0 {
      score := 0.0;
    }
    return Ok(score);
  }

  /** With non-negative weights, a vector that is at least as large in
      every position has at least as large a dot product. */
  lemma {:induction false} DotMonotone(f: seq<real>, g: seq<real>, w: seq<real>)
    requires |f| == |g| <= |w|
    requires forall i :: 0 <= i < |f| ==> 0.0 <= w[i] && f[i] <= g[i]
    ensures Dot(f, w) <= Dot(g, w)
    decreases |f|
  {
    if |f| > 0 {
      var n := |f| - 1;
      DotMonotone(f[..n], g[..n], w);
      assert f[n] * w[n] <= g[n] * w[n];
    }
  }

  /** The zero vector scores zero. */
  lemma {:induction false} DotZero(f: seq<real>, w: seq<real>)
    requires |f| <= |w|
    requires forall i :: 0 <= i < |f| ==> f[i] == 0.0
    ensures Dot(f, w) == 0.0
    decreases |f|
  {
    if |f| > 0 {
      DotZero(f[..|f| - 1], w);
    }
  }

  /** Prediction is monotone in the features when no weight is negative. */
  lemma PredictionMonotone(m: Model, f: seq<real>, g: seq<real>)
    requires Usable(m)
    requires |f| == |g| == m.featureCount
    requires forall i :: 0 <= i < |m.data.weights| ==> 0.0 <= m.data.weights[i]
    requires forall i :: 0 <= i < |f| ==> f[i] <= g[i]
    ensures Prediction(m, f).Ok? && Prediction(m, g).Ok?
    ensures Prediction(m, f).value <= Prediction(m, g).value
  {
    DotMonotone(f, g, m.data.weights);
  }

  /** The threshold plays no part in a prediction, and a prediction
      reads the model without changing it. */
  lemma PredictionIgnoresThreshold(m: Model, t: real, f: seq<real>)
    requires |f| == m.featureCount ==> Usable(m)
    ensures Prediction(m.(threshold := t), f) == Prediction(m, f)
  {
  }

  /** `LoadModel`: the file's fields are copied into a fresh model, which
      remembers its path and the load time. */
  function LoadModel(path: string, read: Result<string>, decode: string -> Result<ModelData>, now: int)
    : (r: Result<Model>)
    ensures r.Ok? <==> read.Ok? && decode(read.value).Ok?
    ensures read.Err? ==> r == Err("failed to open model file: " + read.message)
    ensures r.Ok? ==> var d := decode(read.value).value;
      && r.value.path == path
      && r.value.lastUpdate == now
      && r.value.data == d
      && r.value.featureCount == d.featureCount
      && r.value.threshold == d.threshold
  {
    match read
    case Err(e) => Err("failed to open model file: " + e)
    case Ok(file) =>
      match decode(file)
      case Err(e) => Err("failed to decode model: " + e)
      case Ok(d) => Ok(Model(path, now, d.featureCount, d, d.threshold))
  }

  const THRESHOLD_RANGE := "threshold must be between 0 and 1"

  /** `SetThreshold`: values outside [0, 1] are refused and the model is
      left as it was; otherwise only the threshold changes. */
  function SetThreshold(m: Model, t: real): (r: Result<Model>)
    ensures r.Err? <==> t < 0.0 || t > 1.0
    ensures r.Err? ==> r.message == THRESHOLD_RANGE
    ensures r.Ok? ==> r.value.threshold == t
    ensures r.Ok? ==>
      && r.value.path == m.path
      && r.value.lastUpdate == m.lastUpdate
      && r.value.featureCount == m.featureCount
      && r.value.data == m.data
  {
    if t < 0.0 || t > 1.0 then Err(THRESHOLD_RANGE) else Ok(m.(threshold := t))
  }

  /** Setting an accepted threshold twice is setting it once, and the
      prediction never notices. */
  lemma SetThresholdIdempotent(m: Model, t: real, f: seq<real>)
    requires 0.0 <= t <= 1.0
    requires |f| == m.featureCount ==> Usable(m)
    ensures SetThreshold(m, t).Ok?
    ensures SetThreshold(SetThreshold(m, t).value, t) == SetThreshold(m, t)
    ensures Usable(SetThreshold(m, t).value) <==> Usable(m)
    ensures Prediction(SetThreshold(m, t).value, f) == Prediction(m, f)
  {
  }
}
