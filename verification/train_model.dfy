/** The offline trainer (tools/train_model.py): its feature extractor, the
    sample collection and the model file it writes for the Go detector.

    Python reads each file as UTF-8 text and counts over the decoded code
    points; the Go detector counts over the file's bytes. The model relates
    the two through the UTF-8 encoding of the text (section 3 of RFC 3629):
    a file holding the text `t` holds the bytes `Encode(t)`. Python's text
    mode also translates every line ending ("\r\n" or a lone "\r") to
    "\n" before the counts are taken (`Universal`). The random
    forest, the train/test split and the JSON writer are not part of this
    model. */
module TrainModel {
  import opened Outcomes
  import opened Text
  import opened MlModel
  import opened MlDetector

  // ---- UTF-8 ----

  /** Every code point is below 128: the text encodes to itself. */
  predicate IsAscii(text: string) {
    forall i :: 0 <= i < |text| ==> text[i] as int < 128
  }

  /** The UTF-8 bytes of one code point, as characters below 256. */
  function Utf8(c: char): (b: ByteString)
    ensures 1 <= |b| <= 4
    ensures |b| == 1 <==> c as int < 128
    ensures c as int < 128 ==> b == [c]
  {
    var n := c as int;
    if n < 0x80 then [c]
    else if n < 0x800 then [(0xC0 + n / 64) as char, (0x80 + n % 64) as char]
    else if n < 0x1_0000 then
      [(0xE0 + n / 4096) as char, (0x80 + n / 64 % 64) as char, (0x80 + n % 64) as char]
    else
      [(0xF0 + n / 262144) as char, (0x80 + n / 4096 % 64) as char,
       (0x80 + n / 64 % 64) as char, (0x80 + n % 64) as char]
  }

  /** The bytes of a UTF-8 file holding the text. Only ASCII text is its
      own encoding; any other code point takes more than one byte. */
  function Encode(text: string): (b: ByteString)
    ensures |b| >= |text|
    ensures |b| == |text| <==> IsAscii(text)
    ensures IsAscii(text) ==> b == text
    decreases |text|
  {
    if |text| == 0 then ""
    else
      var rest := Encode(text[1..]);
      assert IsAscii(text) <==> text[0] as int < 128 && IsAscii(text[1..]) by {
        assert forall i :: 1 <= i < |text| ==> text[i] == text[1..][i - 1];
      }
      assert IsAscii(text) ==> text == [text[0]] + text[1..];
      Utf8(text[0]) + rest
  }

  // ---- universal newlines ----

  /** Whether the text holds a Windows line ending "\r\n". */
  predicate HasCrLf(text: string) {
    exists i :: 0 <= i < |text| - 1 && text[i] == '\r' && text[i + 1] == '\n'
  }

  lemma HasCrLfStep(text: string)
    requires |text| > 0
    ensures HasCrLf(text) <==>
      (|text| >= 2 && text[0] == '\r' && text[1] == '\n') || HasCrLf(text[1..])
  {
    if HasCrLf(text[1..]) {
      var i :| 0 <= i < |text[1..]| - 1 && text[1..][i] == '\r' && text[1..][i + 1] == '\n';
      assert text[i + 1] == '\r' && text[i + 2] == '\n';
    }
    if HasCrLf(text) {
      var i :| 0 <= i < |text| - 1 && text[i] == '\r' && text[i + 1] == '\n';
      if i > 0 {
        assert text[1..][i - 1] == '\r' && text[1..][i] == '\n';
      }
    }
  }

  /** The text Python's text mode reads: "\r\n" and a lone "\r" each
      become "\n". Only a "\r\n" pair shortens the text. */
  function Universal(text: string): (u: string)
    ensures |u| <= |text|
    ensures |u| == |text| <==> !HasCrLf(text)
    ensures '\r' !in u
    ensures '\r' !in text ==> u == text
    decreases |text|
  {
    if |text| == 0 then ""
    else
      HasCrLfStep(text);
      if text[0] == '\r' then
        if |text| >= 2 && text[1] == '\n' then "\n" + Universal(text[2..])
        else "\n" + Universal(text[1..])
      else
        assert '\r' !in text ==> '\r' !in text[1..];
        [text[0]] + Universal(text[1..])
  }

  // ---- extract_features ----

  /** The trainer's own name lists, kept apart from the Go extractor's. */
  const PY_DANGEROUS_FUNCS: seq<string> := ["eval(", "system(", "exec(", "shell_exec(", "passthru("]
  const PY_BASE64_MARKER := "base64_decode"
  const PY_SUPER_GLOBALS: seq<string> := ["$_POST", "$_GET", "$_REQUEST", "$_SERVER"]
  const PY_PERM_FUNCS: seq<string> := ["chmod(", "chown(", "fopen(", "file_put_contents("]

  /** The trainer counts the same names as the Go extractor, list by list
      and in the same order. */
  lemma SameNameLists()
    ensures PY_DANGEROUS_FUNCS == DANGEROUS_FUNCS
    ensures PY_BASE64_MARKER == BASE64_MARKER
    ensures PY_SUPER_GLOBALS == SUPER_GLOBALS
    ensures PY_PERM_FUNCS == FILE_FUNCS
  {
  }

  /** `extract_features` on the decoded text: its length in code points,
      then four counts over the trainer's lists (`str.count` counts
      non-overlapping occurrences left to right, as `strings.Count` does). */
  function PyFeatures(text: string): (f: seq<int>)
    ensures |f| == FEATURE_COUNT
    ensures forall i :: 0 <= i < |f| ==> f[i] >= 0
    ensures f[0] == |text|
  {
    [ |text|,
      CountAll(text, PY_DANGEROUS_FUNCS),
      Count(text, PY_BASE64_MARKER),
      CountAll(text, PY_SUPER_GLOBALS),
      CountAll(text, PY_PERM_FUNCS) ]
  }

  /** A file that cannot be opened gives `None`; reading never fails on
      undecodable bytes, which Python drops. `read` holds the decoded text
      before newline translation; the features are taken after it. */
  function ExtractFile(read: Result<string>): (r: Option<seq<int>>)
    ensures r.None? <==> read.Err?
    ensures r.Some? ==> r.value == PyFeatures(Universal(read.value))
  {
    match read
    case Err(_) => None
    case Ok(text) => Some(PyFeatures(Universal(text)))
  }

  /** The integer features as the Go side holds them. */
  function AsReals(f: seq<int>): (r: seq<real>)
    ensures |r| == |f| && forall i :: 0 <= i < |f| ==> r[i] == f[i] as real
  {
    seq(|f|, i requires 0 <= i < |f| => f[i] as real)
  }

  /** On ASCII files without carriage returns the two extractors agree
      feature by feature. */
  lemma AgreeOnAscii(text: string)
    requires IsAscii(text) && '\r' !in text
    ensures ExtractFile(Ok(text)).Some?
    ensures AsReals(ExtractFile(Ok(text)).value) == ExtractFeatures(Encode(text))
  {
    var b := Encode(text);
    assert b == text;
    assert ExtractFile(Ok(text)).value == PyFeatures(b);
    SameCounts(b);
  }

  /** On one and the same text the two extractors count alike. */
  lemma SameCounts(b: ByteString)
    ensures AsReals(PyFeatures(b)) == ExtractFeatures(b)
  {
    SameNameLists();
    var r, go := AsReals(PyFeatures(b)), ExtractFeatures(b);
    assert r[1] == go[1];
    assert r[2] == go[2];
    assert r[3] == go[3];
    assert r[4] == go[4];
  }

  /** The length feature: Go's byte count equals Python's character count
      after newline translation exactly when the text is ASCII with no
      "\r\n", and is larger otherwise. */
  lemma LengthFeatureDiffers(text: string)
    ensures ExtractFile(Ok(text)).Some?
    ensures ExtractFeatures(Encode(text))[0] >= ExtractFile(Ok(text)).value[0] as real
    ensures ExtractFeatures(Encode(text))[0] == ExtractFile(Ok(text)).value[0] as real
            <==> IsAscii(text) && !HasCrLf(text)
  {
  }

  /** A one-letter file holding "é" (U+00E9): two bytes for Go, one
      character for Python. */
  lemma AccentedLetter()
    ensures Encode("é") == [0xC3 as char, 0xA9 as char]
    ensures ExtractFeatures(Encode("é"))[0] == 2.0 && ExtractFile(Ok("é")).value[0] == 1
  {
    assert "é"[1..] == "";
    assert Universal("é") == "é";
  }

  /** A file holding one Windows line ending: two bytes for Go, one
      character for Python. */
  lemma WindowsLineEnding()
    ensures IsAscii("\r\n")
    ensures ExtractFeatures(Encode("\r\n"))[0] == 2.0 && ExtractFile(Ok("\r\n")).value[0] == 1
  {
    assert "\r\n"[2..] == "";
    assert Universal("\r\n") == "\n";
  }

  // ---- collect_samples ----

  /** A file the walk yields: its name and what reading it gave. */
  datatype WalkedFile = WalkedFile(name: string, read: Result<string>)

  /** A file becomes a sample when its name ends in ".php" (case-sensitive)
      and its features could be extracted. */
  predicate Kept(f: WalkedFile) {
    EndsWith(f.name, ".php") && f.read.Ok?
  }

  /** The number of files kept. */
  function KeptCount(files: seq<WalkedFile>): (n: nat)
    ensures n <= |files|
    decreases |files|
  {
    if |files| == 0 then 0 else (if Kept(files[0]) then 1 else 0) + KeptCount(files[1..])
  }

  /** One walk's samples, in walk order, every one labelled `y`. */
  function Sample(files: seq<WalkedFile>, y: int): (r: (seq<seq<int>>, seq<int>))
    ensures |r.0| == |r.1| == KeptCount(files)
    ensures forall k :: 0 <= k < |r.1| ==> r.1[k] == y
    decreases |files|
  {
    if |files| == 0 then ([], [])
    else
      var rest := Sample(files[1..], y);
      if Kept(files[0]) then ([ExtractFile(files[0].read).value] + rest.0, [y] + rest.1)
      else rest
  }

  /** Every kept file contributes its features. */
  lemma {:induction false} SampleComplete(files: seq<WalkedFile>, y: int, j: int)
    requires 0 <= j < |files| && Kept(files[j])
    ensures ExtractFile(files[j].read).value in Sample(files, y).0
    decreases |files|
  {
    if j > 0 {
      assert files[1..][j - 1] == files[j];
      SampleComplete(files[1..], y, j - 1);
    }
  }

  /** Every sample comes from a kept file. */
  lemma {:induction false} SampleSound(files: seq<WalkedFile>, y: int, k: int) returns (j: int)
    requires 0 <= k < |Sample(files, y).0|
    ensures 0 <= j < |files| && Kept(files[j])
    ensures Sample(files, y).0[k] == ExtractFile(files[j].read).value
    decreases |files|
  {
    var all, rest := Sample(files, y).0, Sample(files[1..], y).0;
    if Kept(files[0]) {
      assert all == [ExtractFile(files[0].read).value] + rest;
    } else {
      assert all == rest;
    }
    if Kept(files[0]) && k == 0 {
      j := 0;
    } else {
      var k' := if Kept(files[0]) then k - 1 else k;
      assert all[k] == rest[k'];
      var i := SampleSound(files[1..], y, k');
      j := i + 1;
      assert files[1..][i] == files[j];
    }
  }

  /** `collect_samples`: the normal samples labelled 0, then the webshell
      samples labelled 1. */
  function CollectSamples(normal: seq<WalkedFile>, webshell: seq<WalkedFile>): (r: (seq<seq<int>>, seq<int>))
    ensures |r.0| == |r.1| == KeptCount(normal) + KeptCount(webshell)
    ensures forall k :: 0 <= k < |r.1| ==> (r.1[k] == 0 <==> k < KeptCount(normal))
    ensures forall k :: 0 <= k < |r.1| ==> (r.1[k] == 1 <==> k >= KeptCount(normal))
  {
    var a := Sample(normal, 0);
    var b := Sample(webshell, 1);
    (a.0 + b.0, a.1 + b.1)
  }

  /** Files that are not PHP, or cannot be read, never become samples. */
  lemma {:induction false} SkippedFilesAddNothing(files: seq<WalkedFile>, y: int)
    requires forall j :: 0 <= j < |files| ==> !Kept(files[j])
    ensures Sample(files, y) == ([], [])
    decreases |files|
  {
    if |files| > 0 {
      assert forall j :: 0 <= j < |files[1..]| ==> files[1..][j] == files[j + 1];
      SkippedFilesAddNothing(files[1..], y);
    }
  }

  // ---- save_model_for_go ----

  /** The threshold the trainer always writes. */
  const SAVED_THRESHOLD := 0.5

  /** `save_model_for_go`: the weights, the fixed threshold, and a feature
      count equal to the number of weights. */
  function SaveModelForGo(weights: seq<real>): (d: ModelData)
    ensures d.weights == weights && d.threshold == SAVED_THRESHOLD
    ensures d.featureCount == |weights|
  {
    ModelData(weights, SAVED_THRESHOLD, |weights|)
  }

  /** A saved model loads into a model the Go predictor can use; with one
      weight per feature, every file gets an ML score. */
  lemma SavedModelLoads(weights: seq<real>, path: string, file: string,
                        decode: string -> Result<ModelData>, now: int, content: ByteString)
    requires decode(file) == Ok(SaveModelForGo(weights))
    ensures LoadModel(path, Ok(file), decode, now).Ok?
    ensures var m := LoadModel(path, Ok(file), decode, now).value;
      Usable(m) && m.threshold == SAVED_THRESHOLD && m.featureCount == |weights|
    ensures |weights| == FEATURE_COUNT ==>
      MlDetect(LoadModel(path, Ok(file), decode, now).value, content).Ok?
  {
  }
}
