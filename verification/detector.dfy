/** The detector's verdict (internal/detector/detector.go): the blend of
    the three sub-scores, the risk bands, the two overriding rules, and the
    policy of `Detect` that makes some failures fatal and lets others
    degrade to a zero score. */
module Detector {
  import opened Outcomes
  import opened Text
  import Config
  import opened FeatureMatcher
  import opened BehaviorAnalyzer
  import opened MlModel
  import opened MlDetector

  /** The four risk levels. A level is a string, as in the source. */
  const HIGH := "HIGH"
  const MEDIUM := "MEDIUM"
  const LOW := "LOW"
  const SAFE := "SAFE"

  predicate KnownLevel(level: string) {
    level == HIGH || level == MEDIUM || level == LOW || level == SAFE
  }

  datatype DetectionResult = DetectionResult(
    filePath: string,
    isWebshell: bool,
    riskLevel: string,
    featureScore: real,
    behaviorScore: real,
    mlScore: real,
    matchedFeatures: seq<string>,
    behaviors: seq<string>,
    totalScore: real)

  const FEATURE_WEIGHT: real := 0.5
  const BEHAVIOR_WEIGHT: real := 0.3
  const ML_WEIGHT: real := 0.2

  // ---------------------------------------------------------------------
  // An independent reference: the weighted mean of a list of components.
  // ---------------------------------------------------------------------

  datatype Component = Component(weight: real, score: real)

  function WeightTotal(cs: seq<Component>): real
    decreases |cs|
  {
    if |cs| == 0 then 0.0 else cs[0].weight + WeightTotal(cs[1..])
  }

  function WeightedSum(cs: seq<Component>): real
    decreases |cs|
  {
    if |cs| == 0 then 0.0 else cs[0].weight * cs[0].score + WeightedSum(cs[1..])
  }

  /** The weighted mean; 0 for a list without weight. */
  function WeightedMean(cs: seq<Component>): real {
    if WeightTotal(cs) == 0.0 then 0.0 else WeightedSum(cs) / WeightTotal(cs)
  }

  predicate ScoresWithin(cs: seq<Component>, lo: real, hi: real) {
    forall k :: 0 <= k < |cs| ==> 0.0 <= cs[k].weight && lo <= cs[k].score <= hi
  }

  lemma {:induction false} WeightedSumBounded(cs: seq<Component>, lo: real, hi: real)
    requires ScoresWithin(cs, lo, hi)
    ensures lo * WeightTotal(cs) <= WeightedSum(cs) <= hi * WeightTotal(cs)
    decreases |cs|
  {
    if |cs| > 0 {
      var c, rest := cs[0], cs[1..];
      assert ScoresWithin(rest, lo, hi) by {
        forall k | 0 <= k < |rest| ensures 0.0 <= rest[k].weight && lo <= rest[k].score <= hi {
          assert rest[k] == cs[k + 1];
        }
      }
      WeightedSumBounded(rest, lo, hi);
      assert 0.0 <= c.weight && lo <= c.score <= hi;
      StepBounded(c.weight, c.score, WeightTotal(rest), WeightedSum(rest), lo, hi);
    }
  }

  /** One more component keeps the weighted sum between the bounds. */
  lemma StepBounded(w: real, x: real, W: real, S: real, lo: real, hi: real)
    requires 0.0 <= w && lo <= x <= hi
    requires lo * W <= S <= hi * W
    ensures lo * (w + W) <= w * x + S <= hi * (w + W)
  {
    ProductBetween(w, x, lo, hi);
    assert lo * (w + W) == lo * w + lo * W;
    assert hi * (w + W) == hi * w + hi * W;
  }

  lemma ProductBetween(w: real, x: real, lo: real, hi: real)
    requires 0.0 <= w && lo <= x <= hi
    ensures lo * w <= w * x <= hi * w
  {
    assert w * x - lo * w == w * (x - lo);
    assert hi * w - w * x == w * (hi - x);
  }

  /** A weighted mean of scores in [lo, hi] lies in [lo, hi]. */
  lemma MeanBounded(cs: seq<Component>, lo: real, hi: real)
    requires ScoresWithin(cs, lo, hi) && WeightTotal(cs) > 0.0
    ensures lo <= WeightedMean(cs) <= hi
  {
    WeightedSumBounded(cs, lo, hi);
    QuotientBetween(WeightedSum(cs), WeightTotal(cs), lo, hi);
  }

  /** Dividing a value between `lo * w` and `hi * w` by a positive `w`. */
  lemma QuotientBetween(x: real, w: real, lo: real, hi: real)
    requires w > 0.0 && lo * w <= x <= hi * w
    ensures lo <= x / w <= hi
  {
    var q := x / w;
    assert q * w == x;
    assert (q - lo) * w == x - lo * w;
    assert (hi - q) * w == hi * w - x;
  }

  /** The components the blend averages: the feature score always, the
      behaviour and ML scores only when their analysis is switched on. */
  function Components(behaviorOn: bool, mlOn: bool, f: real, b: real, m: real): seq<Component> {
    [Component(FEATURE_WEIGHT, f)]
    + (if behaviorOn then [Component(BEHAVIOR_WEIGHT, b)] else [])
    + (if mlOn then [Component(ML_WEIGHT, m)] else [])
  }

  // ---------------------------------------------------------------------
  // The bands and the overrides.
  // ---------------------------------------------------------------------

  /** The band switch, before the overrides: the level and the verdict. */
  function Band(total: real, featureScore: real): (r: (string, bool))
    ensures KnownLevel(r.0)
    ensures r.1 ==> r.0 == HIGH || (r.0 == MEDIUM && featureScore > 80.0)
  {
    if total >= 85.0 then (HIGH, true)
    else if total >= 70.0 then (MEDIUM, featureScore > 80.0)
    else if total >= 40.0 then (LOW, false)
    else (SAFE, false)
  }

  /** Severity order of the levels. */
  function Rank(level: string): nat {
    if level == HIGH then 3 else if level == MEDIUM then 2 else if level == LOW then 1 else 0
  }

  /** A higher total never gets a lower band, and the band thresholds
      are 85, 70 and 40. */
  lemma BandMonotone(t1: real, t2: real, f: real)
    requires t1 <= t2
    ensures Rank(Band(t1, f).0) <= Rank(Band(t2, f).0)
    ensures Band(t2, f).0 == HIGH <==> t2 >= 85.0
    ensures Band(t2, f).0 == SAFE <==> t2 < 40.0
  {
  }

  /** Nothing found by feature matching nor by behaviour analysis. */
  predicate Clean(r: DetectionResult) {
    r.featureScore == 0.0 && |r.behaviors| == 0
  }

  /** All three sub-scores within 0-100. */
  predicate ScoresInRange(r: DetectionResult) {
    && 0.0 <= r.featureScore <= 100.0
    && 0.0 <= r.behaviorScore <= 100.0
    && 0.0 <= r.mlScore <= 100.0
  }

  /** `calculateTotalScore`, statement by statement: the running sum and
      weight, the weighted average, the bands, then the feature-score
      override and the clean override, in that order. */
  function CalculateTotalScore(behaviorOn: bool, mlOn: bool, r: DetectionResult): (out: DetectionResult)
    ensures out.filePath == r.filePath && out.featureScore == r.featureScore
    ensures out.matchedFeatures == r.matchedFeatures && out.behaviors == r.behaviors
    // the behaviour reset and the ML dampening
    ensures out.behaviorScore == if behaviorOn && |r.behaviors| == 0 then 0.0 else r.behaviorScore
    ensures out.mlScore == if mlOn && Clean(r) then r.mlScore / 10.0 else r.mlScore
    ensures ScoresInRange(r) ==> 0.0 <= out.totalScore <= 100.0
    ensures KnownLevel(out.riskLevel)
    // the overrides
    ensures r.featureScore > 90.0 ==> out.riskLevel == HIGH && out.isWebshell
    ensures Clean(r) ==> out.riskLevel == SAFE && !out.isWebshell && out.totalScore <= 30.0
    ensures out.isWebshell ==> out.riskLevel == HIGH || (out.riskLevel == MEDIUM && r.featureScore > 80.0)
    ensures !(r.featureScore > 90.0) && !Clean(r) ==> (out.riskLevel, out.isWebshell) == Band(out.totalScore, r.featureScore)
  {
    var f := r.featureScore;
    var total := f * FEATURE_WEIGHT;
    var weight := FEATURE_WEIGHT;
    var b := if behaviorOn && |r.behaviors| == 0 then 0.0 else r.behaviorScore;
    var total := if behaviorOn then total + b * BEHAVIOR_WEIGHT else total;
    var weight := if behaviorOn then weight + BEHAVIOR_WEIGHT else weight;
    var m := if mlOn && f == 0.0 && |r.behaviors| == 0 then r.mlScore * 0.1 else r.mlScore;
    var total := if mlOn then total + m * ML_WEIGHT else total;
    var weight := if mlOn then weight + ML_WEIGHT else weight;
    var mean := total / weight;
    BlendIsMean(behaviorOn, mlOn, f, b, m);
    assert ScoresInRange(r) ==> 0.0 <= mean <= 100.0 by {
      if ScoresInRange(r) {
        MeanBounded(Components(behaviorOn, mlOn, f, b, m), 0.0, 100.0);
      }
    }
    var (level, webshell) := Band(mean, f);
    var (level, webshell) := if f > 90.0 then (HIGH, true) else (level, webshell);
    if f == 0.0 && |r.behaviors| == 0 then
      r.(behaviorScore := b, mlScore := m, riskLevel := SAFE, isWebshell := false, totalScore := Min(mean, 30.0))
    else
      r.(behaviorScore := b, mlScore := m, riskLevel := level, isWebshell := webshell, totalScore := mean)
  }

  /** The total is the weighted mean of the enabled components, the
      behaviour score taken after its reset and the ML score after its
      dampening; a clean result is capped at 30. */
  lemma TotalIsWeightedMean(behaviorOn: bool, mlOn: bool, r: DetectionResult)
    ensures var out := CalculateTotalScore(behaviorOn, mlOn, r);
      var blend := WeightedMean(Components(behaviorOn, mlOn, r.featureScore, out.behaviorScore, out.mlScore));
      out.totalScore == if Clean(r) then Min(blend, 30.0) else blend
  {
    var out := CalculateTotalScore(behaviorOn, mlOn, r);
    BlendIsMean(behaviorOn, mlOn, r.featureScore, out.behaviorScore, out.mlScore);
  }

  /** The running sum divided by the running weight is the weighted mean
      of the enabled components. */
  lemma BlendIsMean(behaviorOn: bool, mlOn: bool, f: real, b: real, m: real)
    ensures var cs := Components(behaviorOn, mlOn, f, b, m);
      && WeightTotal(cs) == FEATURE_WEIGHT + (if behaviorOn then BEHAVIOR_WEIGHT else 0.0)
                                           + (if mlOn then ML_WEIGHT else 0.0)
      && WeightedSum(cs) == f * FEATURE_WEIGHT + (if behaviorOn then b * BEHAVIOR_WEIGHT else 0.0)
                                               + (if mlOn then m * ML_WEIGHT else 0.0)
  {
    var F, B, M := Component(FEATURE_WEIGHT, f), Component(BEHAVIOR_WEIGHT, b), Component(ML_WEIGHT, m);
    var bs := if behaviorOn then [B] else [];
    var ms := if mlOn then [M] else [];
    TotalsAppend([F] + bs, ms);
    TotalsAppend([F], bs);
    assert WeightTotal([F]) == FEATURE_WEIGHT && WeightedSum([F]) == f * FEATURE_WEIGHT by {
      assert [F][1..] == [];
    }
    assert WeightTotal(bs) == (if behaviorOn then BEHAVIOR_WEIGHT else 0.0) by {
      if behaviorOn { assert bs[1..] == []; }
    }
    assert WeightedSum(bs) == (if behaviorOn then b * BEHAVIOR_WEIGHT else 0.0) by {
      if behaviorOn { assert bs[1..] == []; }
    }
    assert WeightTotal(ms) == (if mlOn then ML_WEIGHT else 0.0) by {
      if mlOn { assert ms[1..] == []; }
    }
    assert WeightedSum(ms) == (if mlOn then m * ML_WEIGHT else 0.0) by {
      if mlOn { assert ms[1..] == []; }
    }
  }

  lemma {:induction false} TotalsAppend(a: seq<Component>, b: seq<Component>)
    ensures WeightTotal(a + b) == WeightTotal(a) + WeightTotal(b)
    ensures WeightedSum(a + b) == WeightedSum(a) + WeightedSum(b)
    decreases |a|
  {
    if |a| == 0 {
      assert a + b == b;
    } else {
      assert (a + b)[1..] == a[1..] + b;
      TotalsAppend(a[1..], b);
    }
  }

  /** The blend with everything switched on. */
  lemma FullBlend(f: real, b: real, m: real)
    ensures WeightedMean(Components(true, true, f, b, m)) == 0.5 * f + 0.3 * b + 0.2 * m
  {
    BlendIsMean(true, true, f, b, m);
  }

  /** With only feature matching on, the total is the feature score. */
  lemma FeatureOnlyBlend(f: real)
    ensures WeightedMean(Components(false, false, f, 0.0, 0.0)) == f
  {
    BlendIsMean(false, false, f, 0.0, 0.0);
  }

  // ---------------------------------------------------------------------
  // Detect
  // ---------------------------------------------------------------------

  /** The behaviour step of `Detect`: only a successful analysis fills
      in the score and the behaviours. */
  function WithBehavior(r: DetectionResult, on: bool, analysis: Result<BehaviorAnalysisResult>)
    : (out: DetectionResult)
    ensures on && analysis.Ok? ==>
      out == r.(behaviorScore := analysis.value.score, behaviors := analysis.value.behaviors)
    ensures !(on && analysis.Ok?) ==> out == r
  {
    if on && analysis.Ok? then r.(behaviorScore := analysis.value.score, behaviors := analysis.value.behaviors)
    else r
  }

  /** The ML step of `Detect`: only a successful prediction fills in the
      score. */
  function WithMl(r: DetectionResult, on: bool, ml: Result<real>): (out: DetectionResult)
    ensures on && ml.Ok? ==> out == r.(mlScore := ml.value)
    ensures !(on && ml.Ok?) ==> out == r
  {
    if on && ml.Ok? then r.(mlScore := ml.value) else r
  }

  /** The part of `Detect` after feature matching succeeded: the result
      starts from the feature score, the optional analyses fill in theirs,
      and the blend decides. */
  function Assemble(det: Config.DetectionConfig, path: string, fm: FeatureMatchResult,
                    analysis: Result<BehaviorAnalysisResult>, ml: Result<real>): (r: DetectionResult)
    requires 0.0 <= fm.score <= 100.0
    requires analysis.Ok? ==> 0.0 <= analysis.value.score <= 100.0
    requires ml.Ok? ==> 0.0 <= ml.value <= 100.0
    ensures r.filePath == path && r.featureScore == fm.score && r.matchedFeatures == fm.matches
    ensures !det.behaviorAnalysis.enabled || analysis.Err? ==> r.behaviors == [] && r.behaviorScore == 0.0
    ensures det.behaviorAnalysis.enabled && analysis.Ok? ==> r.behaviors == analysis.value.behaviors
    ensures !det.machineLearning.enabled || ml.Err? ==> r.mlScore == 0.0
    ensures 0.0 <= r.totalScore <= 100.0 && KnownLevel(r.riskLevel)
  {
    var base := DetectionResult(path, false, "", fm.score, 0.0, 0.0, fm.matches, [], 0.0);
    var withBehavior := WithBehavior(base, det.behaviorAnalysis.enabled, analysis);
    var withMl := WithMl(withBehavior, det.machineLearning.enabled, ml);
    assert ScoresInRange(withMl);
    CalculateTotalScore(det.behaviorAnalysis.enabled, det.machineLearning.enabled, withMl)
  }

  /** `Detect`, with the file read, the regex engine, the YARA walk and
      the sandbox run as inputs. A read failure or a feature-matching
      failure is fatal; a failed behaviour or ML analysis only leaves its
      score at 0. */
  function Detect(det: Config.DetectionConfig, path: string, read: Result<ByteString>,
                  matchString: (string, string) -> bool, walk: string -> RuleWalk,
                  run: SandboxRun, model: Model): (r: Result<DetectionResult>)
    requires det.machineLearning.enabled && model.featureCount == FEATURE_COUNT ==> Usable(model)
    ensures r.Err? <==> read.Err? || |read.value| > det.yara.maxFileSize
    ensures r.Ok? ==> var fm := FeatureMatch(det.yara, read.value, matchString, walk).value;
      && r.value.filePath == path
      && r.value.featureScore == fm.score
      && r.value.matchedFeatures == fm.matches
    ensures r.Ok? && (!det.behaviorAnalysis.enabled || BehaviorAnalyze(run).Err?) ==>
      r.value.behaviors == [] && r.value.behaviorScore == 0.0
    ensures r.Ok? && det.behaviorAnalysis.enabled && BehaviorAnalyze(run).Ok? ==>
      r.value.behaviors == BehaviorAnalyze(run).value.behaviors
    ensures r.Ok? && (!det.machineLearning.enabled || MlDetect(model, read.value).Err?) ==>
      r.value.mlScore == 0.0
    ensures r.Ok? ==> 0.0 <= r.value.totalScore <= 100.0 && KnownLevel(r.value.riskLevel)
  {
    match read
    case Err(e) => Err("failed to read file: " + e)
    case Ok(content) =>
      match FeatureMatch(det.yara, content, matchString, walk)
      case Err(e) => Err("feature matching failed: " + e)
      case Ok(fm) => Ok(Judge(det, path, content, fm, run, model))
  }

  /** The analyses that run after feature matching succeeded, and the
      verdict assembled from them. */
  function Judge(det: Config.DetectionConfig, path: string, content: ByteString, fm: FeatureMatchResult,
                 run: SandboxRun, model: Model): (r: DetectionResult)
    requires det.machineLearning.enabled && model.featureCount == FEATURE_COUNT ==> Usable(model)
    requires 0.0 <= fm.score <= 100.0
    ensures r.filePath == path && r.featureScore == fm.score && r.matchedFeatures == fm.matches
    ensures !det.behaviorAnalysis.enabled || BehaviorAnalyze(run).Err? ==>
      r.behaviors == [] && r.behaviorScore == 0.0
    ensures det.behaviorAnalysis.enabled && BehaviorAnalyze(run).Ok? ==>
      r.behaviors == BehaviorAnalyze(run).value.behaviors
    ensures !det.machineLearning.enabled || MlDetect(model, content).Err? ==> r.mlScore == 0.0
    ensures 0.0 <= r.totalScore <= 100.0 && KnownLevel(r.riskLevel)
  {
    var analysis := if det.behaviorAnalysis.enabled then BehaviorAnalyze(run) else Err("");
    var ml := if det.machineLearning.enabled then MlDetect(model, content) else Err("");
    Assemble(det, path, fm, analysis, ml)
  }

  /** Content that no pattern and no YARA rule matches, on a file whose
      behaviour analysis observed nothing or failed, is judged safe
      whatever the ML model says. */
  lemma NothingFoundIsSafe(det: Config.DetectionConfig, path: string, content: ByteString,
                           matchString: (string, string) -> bool, walk: string -> RuleWalk,
                           run: SandboxRun, model: Model)
    requires det.machineLearning.enabled && model.featureCount == FEATURE_COUNT ==> Usable(model)
    requires |content| <= det.yara.maxFileSize
    requires forall j :: 0 <= j < |WEBSHELL_PATTERNS| ==> !matchString(WEBSHELL_PATTERNS[j].source, content)
    requires det.yara.enabled ==> AllMatches(det.yara.ruleTypes, walk) == []
    requires BehaviorAnalyze(run).Ok? ==> BehaviorAnalyze(run).value.behaviors == []
    ensures Detect(det, path, Ok(content), matchString, walk, run, model).Ok?
    ensures var r := Detect(det, path, Ok(content), matchString, walk, run, model).value;
      r.riskLevel == SAFE && !r.isWebshell && r.totalScore <= 30.0
  {
    NoMatchScoresZero(det.yara, content, matchString, walk);
  }

  /** A model made for another feature count, even one with fewer weights
      than it declares, makes the ML analysis fail: detection goes on with
      an ML score of 0. */
  lemma MisfitModelScoresZero(det: Config.DetectionConfig, path: string, content: ByteString,
                              matchString: (string, string) -> bool, walk: string -> RuleWalk,
                              run: SandboxRun, model: Model)
    requires |content| <= det.yara.maxFileSize
    requires model.featureCount != FEATURE_COUNT
    ensures MlDetect(model, content).Err?
    ensures Detect(det, path, Ok(content), matchString, walk, run, model).Ok?
    ensures Detect(det, path, Ok(content), matchString, walk, run, model).value.mlScore == 0.0
  {
  }

  /** A strong feature match decides the verdict whatever the other
      analyses report. */
  lemma StrongFeatureMatchIsWebshell(det: Config.DetectionConfig, path: string, content: ByteString,
                                     matchString: (string, string) -> bool, walk: string -> RuleWalk,
                                     run: SandboxRun, model: Model)
    requires det.machineLearning.enabled && model.featureCount == FEATURE_COUNT ==> Usable(model)
    requires |content| <= det.yara.maxFileSize
    requires matchString(WEBSHELL_PATTERNS[0].source, content)
    ensures Detect(det, path, Ok(content), matchString, walk, run, model).Ok?
    ensures var r := Detect(det, path, Ok(content), matchString, walk, run, model).value;
      r.riskLevel == HIGH && r.isWebshell
  {
    assert WEBSHELL_PATTERNS[0].score == 100.0;
    StrongPatternReaches100(0, content, matchString);
    assert MatchRegexPatterns(content, matchString).score >= 100.0;
    assert FeatureMatch(det.yara, content, matchString, walk).value.score == 100.0;
  }
}
