/** Feature extraction and scaling for the machine-learning detector
    (internal/detector/ml_detector.go). */
module MlDetector {
  import opened Outcomes
  import opened Text
  import opened MlModel

  const DANGEROUS_FUNCS: seq<string> := ["eval(", "system(", "exec(", "shell_exec(", "passthru("]
  const BASE64_MARKER := "base64_decode"
  const SUPER_GLOBALS: seq<string> := ["$_POST", "$_GET", "$_REQUEST", "$_SERVER"]
  const FILE_FUNCS: seq<string> := ["chmod(", "chown(", "fopen(", "file_put_contents("]

  /** The number of features both extractors produce. */
  const FEATURE_COUNT := 5

  /** The sum of `strings.Count` over a list of needles; each needle is
      counted on its own, so overlapping needles are counted twice. */
  function CountAll(s: string, needles: seq<string>): (n: nat)
    decreases |needles|
  {
    if |needles| == 0 then 0 else Count(s, needles[0]) + CountAll(s, needles[1..])
  }

  /** The sum is positive exactly when some (non-empty) needle occurs. */
  lemma {:induction false} CountAllPositiveIff(s: string, needles: seq<string>)
    requires forall i :: 0 <= i < |needles| ==> |needles[i]| > 0
    ensures CountAll(s, needles) > 0 <==> exists i :: 0 <= i < |needles| && Contains(s, needles[i])
    decreases |needles|
  {
    if |needles| > 0 {
      CountPositiveIffContains(s, needles[0]);
      CountAllPositiveIff(s, needles[1..]);
      if exists i :: 1 <= i < |needles| && Contains(s, needles[i]) {
        var i :| 1 <= i < |needles| && Contains(s, needles[i]);
        assert needles[1..][i - 1] == needles[i];
      }
      if exists i :: 0 <= i < |needles[1..]| && Contains(s, needles[1..][i]) {
        var i :| 0 <= i < |needles[1..]| && Contains(s, needles[1..][i]);
        assert Contains(s, needles[i + 1]);
      }
    }
  }

  /** No needle occurs in the empty string. */
  lemma {:induction false} CountAllEmpty(needles: seq<string>)
    requires forall i :: 0 <= i < |needles| ==> |needles[i]| > 0
    ensures CountAll("", needles) == 0
    decreases |needles|
  {
    if |needles| > 0 {
      CountAllEmpty(needles[1..]);
    }
  }

  /** `extractFeatures`: byte length, dangerous calls, base64 decoders,
      superglobals and file functions, in that order. It never fails. */
  function ExtractFeatures(content: ByteString): (f: seq<real>)
    ensures |f| == FEATURE_COUNT
    ensures forall i :: 0 <= i < |f| ==> f[i] >= 0.0
    ensures f[0] == |content| as real
  {
    [ |content| as real,
      CountAll(content, DANGEROUS_FUNCS) as real,
      Count(content, BASE64_MARKER) as real,
      CountAll(content, SUPER_GLOBALS) as real,
      CountAll(content, FILE_FUNCS) as real ]
  }

  /** Each count feature is non-zero exactly when one of its names occurs. */
  lemma FeaturesDetectPresence(content: ByteString)
    ensures ExtractFeatures(content)[1] > 0.0 <==>
      exists i :: 0 <= i < |DANGEROUS_FUNCS| && Contains(content, DANGEROUS_FUNCS[i])
    ensures ExtractFeatures(content)[2] > 0.0 <==> Contains(content, BASE64_MARKER)
    ensures ExtractFeatures(content)[3] > 0.0 <==>
      exists i :: 0 <= i < |SUPER_GLOBALS| && Contains(content, SUPER_GLOBALS[i])
    ensures ExtractFeatures(content)[4] > 0.0 <==>
      exists i :: 0 <= i < |FILE_FUNCS| && Contains(content, FILE_FUNCS[i])
  {
    DangerousPresence(content);
    MarkerPresence(content);
    GlobalsPresence(content);
    FilePresence(content);
  }

  lemma DangerousPresence(content: ByteString)
    ensures ExtractFeatures(content)[1] > 0.0 <==>
      exists i :: 0 <= i < |DANGEROUS_FUNCS| && Contains(content, DANGEROUS_FUNCS[i])
  {
    CountAllPositiveIff(content, DANGEROUS_FUNCS);
  }

  lemma MarkerPresence(content: ByteString)
    ensures ExtractFeatures(content)[2] > 0.0 <==> Contains(content, BASE64_MARKER)
  {
    CountPositiveIffContains(content, BASE64_MARKER);
  }

  lemma GlobalsPresence(content: ByteString)
    ensures ExtractFeatures(content)[3] > 0.0 <==>
      exists i :: 0 <= i < |SUPER_GLOBALS| && Contains(content, SUPER_GLOBALS[i])
  {
    CountAllPositiveIff(content, SUPER_GLOBALS);
  }

  lemma FilePresence(content: ByteString)
    ensures ExtractFeatures(content)[4] > 0.0 <==>
      exists i :: 0 <= i < |FILE_FUNCS| && Contains(content, FILE_FUNCS[i])
  {
    CountAllPositiveIff(content, FILE_FUNCS);
  }

  /** Empty content is the zero vector. */
  lemma EmptyContentZeroVector()
    ensures forall i :: 0 <= i < FEATURE_COUNT ==> ExtractFeatures("")[i] == 0.0
  {
    CountAllEmpty(DANGEROUS_FUNCS);
    CountEmpty(BASE64_MARKER);
    CountAllEmpty(SUPER_GLOBALS);
    CountAllEmpty(FILE_FUNCS);
  }

  /** One `shell_exec(` counts twice: it contains `exec(` as well. */
  lemma ShellExecCountsTwice()
    ensures ExtractFeatures("shell_exec(")[1] == 2.0
  {
    DangerousInShellExec();
  }

  lemma DangerousInShellExec()
    ensures CountAll("shell_exec(", DANGEROUS_FUNCS) == 2
  {
    ShellExecNeedles();
    CountAllFive("shell_exec(", DANGEROUS_FUNCS);
  }

  /** How often each dangerous name occurs in `shell_exec(`. */
  lemma ShellExecNeedles()
    ensures Count("shell_exec(", DANGEROUS_FUNCS[0]) == 0
    ensures Count("shell_exec(", DANGEROUS_FUNCS[1]) == 0
    ensures Count("shell_exec(", DANGEROUS_FUNCS[2]) == 1
    ensures Count("shell_exec(", DANGEROUS_FUNCS[3]) == 1
    ensures Count("shell_exec(", DANGEROUS_FUNCS[4]) == 0
  {
    ShellExecLacks("eval(", 1);
    ShellExecLacks("system(", 1);
    ShellExecLacks("passthru(", 0);
    ShellExecItself();
    ShellExecHoldsExec();
  }

  /** A five-needle sum, written out. */
  lemma CountAllFive(s: string, d: seq<string>)
    requires |d| == 5
    ensures CountAll(s, d) == Count(s, d[0]) + Count(s, d[1]) + Count(s, d[2]) + Count(s, d[3]) + Count(s, d[4])
  {
    assert d[1..][0] == d[1] && d[2..][0] == d[2] && d[3..][0] == d[3] && d[4..][0] == d[4];
    assert d[1..][1..] == d[2..] && d[2..][1..] == d[3..] && d[3..][1..] == d[4..] && d[4..][1..] == d[5..];
    assert CountAll(s, d[5..]) == 0;
    assert CountAll(s, d[4..]) == Count(s, d[4]);
    assert CountAll(s, d[3..]) == Count(s, d[3]) + Count(s, d[4]);
    assert CountAll(s, d[2..]) == Count(s, d[2]) + Count(s, d[3]) + Count(s, d[4]);
    assert CountAll(s, d[1..]) == Count(s, d[1]) + Count(s, d[2]) + Count(s, d[3]) + Count(s, d[4]);
  }

  lemma ShellExecLacks(name: string, k: int)
    requires 0 <= k < |name| && name[k] !in "shell_exec("
    ensures Count("shell_exec(", name) == 0
  {
    AbsentCharNotContained("shell_exec(", name, k);
    CountPositiveIffContains("shell_exec(", name);
  }

  lemma ShellExecItself()
    ensures Count("shell_exec(", "shell_exec(") == 1
  {
    var s := "shell_exec(";
    assert s[|s|..] == "";
  }

  lemma ShellExecHoldsExec()
    ensures Count("shell_exec(", "exec(") == 1
  {
    var s, e := "shell_exec(", "exec(";
    forall i | 0 <= i < 6 ensures !StartsAt(s, e, i) {
      assert s[i..i + |e|][0] == s[i];
      if i == 2 { assert s[i..i + |e|][1] == s[3]; }
    }
    assert s[6..] == e;
    OnlyAtEnd(s, e, 6);
  }

  predicate StartsAt(s: string, e: string, i: nat) {
    i + |e| <= |s| && s[i..i + |e|] == e
  }

  /** A needle that occurs only as the text's suffix is counted once. */
  lemma {:induction false} OnlyAtEnd(s: string, e: string, k: nat)
    requires |e| > 0 && k + |e| == |s| && s[k..] == e
    requires forall i :: 0 <= i < k ==> !StartsAt(s, e, i)
    ensures Count(s, e) == 1
    decreases k
  {
    if k == 0 {
      assert s[..|e|] == s;
      assert s[|e|..] == "";
    } else {
      assert !StartsAt(s, e, 0);
      assert s[..|e|] == s[0..0 + |e|];
      var t := s[1..];
      forall i | 0 <= i < k - 1 ensures !StartsAt(t, e, i) {
        assert !StartsAt(s, e, i + 1);
        assert t[i..i + |e|] == s[i + 1..i + 1 + |e|];
      }
      assert t[k - 1..] == s[k..];
      OnlyAtEnd(t, e, k - 1);
    }
  }

  /** `mlDetect`: the prediction on the extracted features, scaled to
      0-100; prediction errors come back wrapped. */
  function MlDetect(m: Model, content: ByteString): (r: Result<real>)
    requires m.featureCount == FEATURE_COUNT ==> Usable(m)
    ensures r.Err? <==> m.featureCount != FEATURE_COUNT
    ensures r.Err? ==> r.message == "failed to predict: " + CountMismatch(m.featureCount, FEATURE_COUNT)
    ensures r.Ok? ==> 0.0 <= r.value <= 100.0
    ensures r.Ok? ==> r.value == 100.0 * Prediction(m, ExtractFeatures(content)).value
  {
    match Prediction(m, ExtractFeatures(content))
    case Err(e) => Err("failed to predict: " + e)
    case Ok(p) => Ok(p * 100.0)
  }

  /** With non-negative weights, empty content gets the lowest ML score
      any content can get. */
  lemma EmptyContentScoresLowest(m: Model, content: ByteString)
    requires Usable(m) && m.featureCount == FEATURE_COUNT
    requires forall i :: 0 <= i < |m.data.weights| ==> 0.0 <= m.data.weights[i]
    ensures MlDetect(m, "").Ok? && MlDetect(m, content).Ok?
    ensures MlDetect(m, "").value <= MlDetect(m, content).value
  {
    EmptyContentZeroVector();
    PredictionMonotone(m, ExtractFeatures(""), ExtractFeatures(content));
  }
}
