/** Static feature matching (internal/detector/feature_matcher.go).

    Go's `regexp` engine is an oracle `matchString(patternSource, text)`;
    the YARA library and the rule-directory walk are an oracle giving, per
    configured rule type, the matches collected and whether the walk hit an
    error. */
module FeatureMatcher {
  import opened Outcomes
  import opened Text
  import Config

  /** One entry of the indicator catalogue: its regular-expression source
      and the score it adds when it matches at least once. */
  datatype WebshellPattern = WebshellPattern(source: string, score: real)

  /** Catalogue entry 0: dangerous function calls. */
  const CALL_SOURCE := @"\b(?:eval|system|exec|shell_exec|passthru|proc_open|popen|assert|create_function|include|require|file_put_contents|fwrite|fopen|unlink|rename|copy|symlink|base64_decode|gzinflate|str_rot13)\b\s*\("

  /** Catalogue entry 1: dynamic function invocation. */
  const DYNAMIC_SOURCE := @"\bcall_user_func\s*\(\s*(?:'.*?'|"".*?""|\$\w+)\s*[,\)]|\barray_map\s*\(|\bcreate_function\s*\("

  /** Catalogue entry 2: encoding / obfuscation wrappers around a literal. */
  const DECODE_SOURCE := @"\b(?:base64_decode|gzinflate|gzuncompress|str_rot13|convert_uudecode)\s*\(\s*(?:'[^']*'|""[^""]*"")\s*\)"

  /** Catalogue entry 3: superglobal assigned to a variable, or a variable called as a function. */
  const VARIABLE_SOURCE := @"\b(?:\$\w+\s*=\s*[\$_](?:POST|GET|REQUEST|COOKIE|SERVER)\b|\$\w+\s*\(\s*\$\w+\s*\))"

  /** Catalogue entry 4: self-modifying file operations. */
  const SELF_MODIFY_SOURCE := @"\b(?:file_put_contents|fwrite)\s*\(\s*'.*\.php'\s*,|\bchmod\s*\(\s*'.*'\s*,\s*0777\s*\)|\b@unlink\s*\(\s*__FILE__\s*\)"

  /** `WebshellPatterns`, in catalogue order. */
  const WEBSHELL_PATTERNS: seq<WebshellPattern> := [
    WebshellPattern(CALL_SOURCE, 100.0),
    WebshellPattern(DYNAMIC_SOURCE, 80.0),
    WebshellPattern(DECODE_SOURCE, 100.0),
    WebshellPattern(VARIABLE_SOURCE, 80.0),
    WebshellPattern(SELF_MODIFY_SOURCE, 80.0)
  ]

  /** Sum of the catalogue weights from entry `i` on. */
  function WeightFrom(i: nat): real
    requires i <= |WEBSHELL_PATTERNS|
    decreases |WEBSHELL_PATTERNS| - i
  {
    if i == |WEBSHELL_PATTERNS| then 0.0 else WEBSHELL_PATTERNS[i].score + WeightFrom(i + 1)
  }

  datatype RegexOutcome = RegexOutcome(score: real, matched: seq<string>)

  /** The catalogue's sources are pairwise different (their lengths are). */
  lemma SourcesDistinct()
    ensures forall a, b :: 0 <= a < b < |WEBSHELL_PATTERNS| ==>
      WEBSHELL_PATTERNS[a].source != WEBSHELL_PATTERNS[b].source
  {
    assert |WEBSHELL_PATTERNS[0].source| == 196 && |WEBSHELL_PATTERNS[1].source| == 93;
    assert |WEBSHELL_PATTERNS[2].source| == 101 && |WEBSHELL_PATTERNS[3].source| == 83;
    assert |WEBSHELL_PATTERNS[4].source| == 118;
  }

  /** `matchRegexPatterns` over the catalogue entries `i..`: every pattern
      that matches adds its weight once and its source once. */
  function RegexFrom(i: nat, text: string, matchString: (string, string) -> bool): (r: RegexOutcome)
    requires i <= |WEBSHELL_PATTERNS|
    ensures 0.0 <= r.score <= WeightFrom(i)
    ensures r.score == 0.0 <==> |r.matched| == 0
    ensures |r.matched| <= |WEBSHELL_PATTERNS| - i
    ensures forall p :: p in r.matched <==>
      exists j :: i <= j < |WEBSHELL_PATTERNS| && WEBSHELL_PATTERNS[j].source == p
                  && matchString(WEBSHELL_PATTERNS[j].source, text)
    ensures (forall j :: i <= j < |WEBSHELL_PATTERNS| ==> !matchString(WEBSHELL_PATTERNS[j].source, text))
            ==> r == RegexOutcome(0.0, [])
    decreases |WEBSHELL_PATTERNS| - i
  {
    if i == |WEBSHELL_PATTERNS| then RegexOutcome(0.0, [])
    else
      var rest := RegexFrom(i + 1, text, matchString);
      var pat := WEBSHELL_PATTERNS[i];
      if matchString(pat.source, text) then
        RegexOutcome(pat.score + rest.score, [pat.source] + rest.matched)
      else rest
  }

  /** Sum of the weights of the entries of `pats` at `idx`. */
  function WeightIn(pats: seq<WebshellPattern>, idx: seq<nat>): real
    requires forall a :: 0 <= a < |idx| ==> idx[a] < |pats|
  {
    if |idx| == 0 then 0.0 else pats[idx[0]].score + WeightIn(pats, idx[1..])
  }

  /** Sum of the weights of the catalogue entries at `idx`. */
  function WeightOf(idx: seq<nat>): real
    requires forall a :: 0 <= a < |idx| ==> idx[a] < |WEBSHELL_PATTERNS|
  {
    WeightIn(WEBSHELL_PATTERNS, idx)
  }

  /** `idx` lists, in increasing order, exactly the entries of `pats` from
      `i` on that match, and `out` is read off them: their sources in that
      order, and the sum of their weights. */
  predicate IndexesIn(pats: seq<WebshellPattern>, i: nat, text: string, matchString: (string, string) -> bool,
                      idx: seq<nat>, out: RegexOutcome)
  {
    && (forall a :: 0 <= a < |idx| ==> i <= idx[a] < |pats|)
    && (forall a, b :: 0 <= a < b < |idx| ==> idx[a] < idx[b])
    && (forall j :: i <= j < |pats| ==> (j in idx <==> matchString(pats[j].source, text)))
    && |out.matched| == |idx|
    && (forall a :: 0 <= a < |idx| ==> out.matched[a] == pats[idx[a]].source)
    && out.score == WeightIn(pats, idx)
  }

  /** A matching entry goes in front of the later ones. */
  lemma ConsStep(pats: seq<WebshellPattern>, i: nat, text: string, matchString: (string, string) -> bool,
                 rest: seq<nat>, out: RegexOutcome) returns (idx: seq<nat>)
    requires i < |pats| && matchString(pats[i].source, text)
    requires IndexesIn(pats, i + 1, text, matchString, rest, out)
    ensures IndexesIn(pats, i, text, matchString, idx,
                      RegexOutcome(pats[i].score + out.score, [pats[i].source] + out.matched))
  {
    idx := [i] + rest;
    assert idx[1..] == rest;
    forall j | i <= j < |pats| ensures j in idx <==> matchString(pats[j].source, text) {
      if j > i && j in idx {
        var a :| 0 <= a < |idx| && idx[a] == j;
        assert rest[a - 1] == j;
      }
    }
  }

  /** A non-matching entry is passed over. */
  lemma SkipStep(pats: seq<WebshellPattern>, i: nat, text: string, matchString: (string, string) -> bool,
                 rest: seq<nat>, out: RegexOutcome)
    requires i < |pats| && !matchString(pats[i].source, text)
    requires IndexesIn(pats, i + 1, text, matchString, rest, out)
    ensures IndexesIn(pats, i, text, matchString, rest, out)
  {
  }

  /** The outcome is read off the matching entries from `i` on, taken in
      catalogue order: their sources in that order, and the sum of their
      weights. */
  lemma {:induction false} RegexIndices(i: nat, text: string, matchString: (string, string) -> bool)
    returns (idx: seq<nat>)
    requires i <= |WEBSHELL_PATTERNS|
    ensures IndexesIn(WEBSHELL_PATTERNS, i, text, matchString, idx, RegexFrom(i, text, matchString))
    decreases |WEBSHELL_PATTERNS| - i
  {
    if i == |WEBSHELL_PATTERNS| {
      idx := [];
    } else {
      var rest := RegexIndices(i + 1, text, matchString);
      if matchString(WEBSHELL_PATTERNS[i].source, text) {
        idx := ConsStep(WEBSHELL_PATTERNS, i, text, matchString, rest, RegexFrom(i + 1, text, matchString));
      } else {
        SkipStep(WEBSHELL_PATTERNS, i, text, matchString, rest, RegexFrom(i + 1, text, matchString));
        idx := rest;
      }
    }
  }

  /** The whole catalogue. */
  function MatchRegexPatterns(text: string, matchString: (string, string) -> bool): (r: RegexOutcome)
    ensures 0.0 <= r.score <= 440.0
    ensures r.score == 0.0 <==> |r.matched| == 0
    ensures forall j :: 0 <= j < |WEBSHELL_PATTERNS| ==>
      (WEBSHELL_PATTERNS[j].source in r.matched <==> matchString(WEBSHELL_PATTERNS[j].source, text))
  {
    var r := RegexFrom(0, text, matchString);
    assert WeightFrom(0) == 440.0 by {
      assert WeightFrom(5) == 0.0;
    }
    r
  }

  /** Over the whole catalogue: the matched sources are the matching
      entries' sources, each once, in catalogue order, and the score is the
      sum of those entries' weights. */
  lemma MatchedInCatalogueOrder(text: string, matchString: (string, string) -> bool)
    returns (idx: seq<nat>)
    ensures forall a, b :: 0 <= a < b < |idx| ==> idx[a] < idx[b]
    ensures forall a :: 0 <= a < |idx| ==> idx[a] < |WEBSHELL_PATTERNS|
    ensures forall j :: 0 <= j < |WEBSHELL_PATTERNS| ==>
      (j in idx <==> matchString(WEBSHELL_PATTERNS[j].source, text))
    ensures |MatchRegexPatterns(text, matchString).matched| == |idx|
    ensures forall a :: 0 <= a < |idx| ==>
      MatchRegexPatterns(text, matchString).matched[a] == WEBSHELL_PATTERNS[idx[a]].source
    ensures MatchRegexPatterns(text, matchString).score == WeightOf(idx)
    ensures forall a, b :: 0 <= a < b < |idx| ==>
      MatchRegexPatterns(text, matchString).matched[a] != MatchRegexPatterns(text, matchString).matched[b]
  {
    idx := RegexIndices(0, text, matchString);
    SourcesDistinct();
  }

  /** Scoring is presence-only: two texts that match the same catalogue
      entries score and list identically, however often each matches. */
  lemma {:induction false} RegexPresenceOnly(i: nat, t1: string, t2: string, matchString: (string, string) -> bool)
    requires i <= |WEBSHELL_PATTERNS|
    requires forall j :: i <= j < |WEBSHELL_PATTERNS| ==>
      (matchString(WEBSHELL_PATTERNS[j].source, t1) <==> matchString(WEBSHELL_PATTERNS[j].source, t2))
    ensures RegexFrom(i, t1, matchString) == RegexFrom(i, t2, matchString)
    decreases |WEBSHELL_PATTERNS| - i
  {
    if i < |WEBSHELL_PATTERNS| {
      RegexPresenceOnly(i + 1, t1, t2, matchString);
    }
  }

  /** The score is the sum of the matching entries' weights: an entry that
      starts to match, all else equal, adds exactly its own weight. */
  lemma {:induction false} MatchAddsWeight(i: nat, j: nat, t1: string, t2: string,
                                           matchString: (string, string) -> bool)
    requires i <= j < |WEBSHELL_PATTERNS|
    requires forall k :: i <= k < |WEBSHELL_PATTERNS| && k != j ==>
      (matchString(WEBSHELL_PATTERNS[k].source, t1) <==> matchString(WEBSHELL_PATTERNS[k].source, t2))
    requires !matchString(WEBSHELL_PATTERNS[j].source, t1) && matchString(WEBSHELL_PATTERNS[j].source, t2)
    ensures RegexFrom(i, t2, matchString).score == RegexFrom(i, t1, matchString).score + WEBSHELL_PATTERNS[j].score
    decreases |WEBSHELL_PATTERNS| - i
  {
    if i == j {
      RegexPresenceOnly(i + 1, t1, t2, matchString);
    } else {
      MatchAddsWeight(i + 1, j, t1, t2, matchString);
    }
  }

  /** A match of either 100-weight entry alone reaches 100. */
  lemma {:induction false} StrongPatternReaches100(i: nat, text: string, matchString: (string, string) -> bool)
    requires i <= |WEBSHELL_PATTERNS|
    requires exists j :: i <= j < |WEBSHELL_PATTERNS| && WEBSHELL_PATTERNS[j].score == 100.0
                         && matchString(WEBSHELL_PATTERNS[j].source, text)
    ensures RegexFrom(i, text, matchString).score >= 100.0
    decreases |WEBSHELL_PATTERNS| - i
  {
    var pat := WEBSHELL_PATTERNS[i];
    if !(pat.score == 100.0 && matchString(pat.source, text)) {
      StrongPatternReaches100(i + 1, text, matchString);
    }
  }

  /** One YARA match: the rule's name and its tags. */
  datatype YaraMatch = YaraMatch(rule: string, tags: seq<string>)

  /** The matches the walk of one rule-type directory collected, and
      whether the walk stopped on an error after collecting them. */
  datatype RuleWalk = RuleWalk(found: seq<YaraMatch>, failed: bool)

  datatype YaraOutcome = YaraOutcome(score: real, labels: seq<string>)

  /** `"<rule> (<tags joined by ', '>)"`. */
  function Label(m: YaraMatch): string {
    m.rule + " (" + Join(m.tags, ", ") + ")"
  }

  /** All matches of the rule types, in configuration order. */
  function AllMatches(ruleTypes: seq<string>, walk: string -> RuleWalk): seq<YaraMatch>
    decreases |ruleTypes|
  {
    if |ruleTypes| == 0 then [] else walk(ruleTypes[0]).found + AllMatches(ruleTypes[1..], walk)
  }

  /** Labels and raw (uncapped) score of the rule types from the left. */
  function YaraFrom(ruleTypes: seq<string>, walk: string -> RuleWalk): (r: YaraOutcome)
    ensures |r.labels| == |AllMatches(ruleTypes, walk)|
    ensures forall k :: 0 <= k < |r.labels| ==> r.labels[k] == Label(AllMatches(ruleTypes, walk)[k])
    ensures r.score == 50.0 * (|r.labels| as real)
    decreases |ruleTypes|
  {
    if |ruleTypes| == 0 then YaraOutcome(0.0, [])
    else
      var found := walk(ruleTypes[0]).found;
      var rest := YaraFrom(ruleTypes[1..], walk);
      YaraOutcome(50.0 * (|found| as real) + rest.score,
                  seq(|found|, k requires 0 <= k < |found| => Label(found[k])) + rest.labels)
  }

  /** `matchYaraRules`: never fails; a failing walk is only logged and the
      matches it collected are kept. Each match adds 50, capped at 100. */
  function MatchYaraRules(ruleTypes: seq<string>, walk: string -> RuleWalk): (r: YaraOutcome)
    ensures r.score == 0.0 <==> |r.labels| == 0
    ensures r.score == 50.0 <==> |r.labels| == 1
    ensures r.score == 100.0 <==> |r.labels| >= 2
    ensures |r.labels| == |AllMatches(ruleTypes, walk)|
    ensures forall k :: 0 <= k < |r.labels| ==> r.labels[k] == Label(AllMatches(ruleTypes, walk)[k])
  {
    var raw := YaraFrom(ruleTypes, walk);
    YaraOutcome(Min(raw.score, 100.0), raw.labels)
  }

  /** Whether a walk failed does not change what `matchYaraRules` reports. */
  lemma {:induction false} WalkFailuresIgnored(ruleTypes: seq<string>, w1: string -> RuleWalk, w2: string -> RuleWalk)
    requires forall t :: t in ruleTypes ==> w1(t).found == w2(t).found
    ensures MatchYaraRules(ruleTypes, w1) == MatchYaraRules(ruleTypes, w2)
    decreases |ruleTypes|
  {
    if |ruleTypes| > 0 {
      WalkFailuresIgnored(ruleTypes[1..], w1, w2);
    }
  }

  datatype FeatureMatchResult = FeatureMatchResult(
    score: real,
    matches: seq<string>,
    yaraMatches: seq<string>,
    regexMatches: seq<string>)

  const TOO_LARGE := "file size exceeds maximum allowed size for YARA scanning"

  /** `featureMatch`: the size limit applies whether or not YARA is on; the
      regex and YARA contributions add up and are capped at 100. */
  function FeatureMatch(yara: Config.YaraConfig, content: ByteString,
                        matchString: (string, string) -> bool,
                        walk: string -> RuleWalk): (r: Result<FeatureMatchResult>)
    ensures r.Err? <==> |content| > yara.maxFileSize
    ensures r.Ok? ==> 0.0 <= r.value.score <= 100.0
    ensures r.Ok? ==> r.value.matches == r.value.regexMatches + r.value.yaraMatches
    ensures r.Ok? ==> r.value.regexMatches == MatchRegexPatterns(content, matchString).matched
    ensures r.Ok? && !yara.enabled ==>
      && r.value.yaraMatches == []
      && r.value.score == Min(MatchRegexPatterns(content, matchString).score, 100.0)
    ensures r.Ok? && yara.enabled ==>
      && r.value.yaraMatches == MatchYaraRules(yara.ruleTypes, walk).labels
      && r.value.score == Min(MatchRegexPatterns(content, matchString).score
                              + MatchYaraRules(yara.ruleTypes, walk).score, 100.0)
  {
    if |content| > yara.maxFileSize then Err(TOO_LARGE)
    else
      var regex := MatchRegexPatterns(content, matchString);
      var yaraOut := if yara.enabled then MatchYaraRules(yara.ruleTypes, walk) else YaraOutcome(0.0, []);
      var raw := regex.score + yaraOut.score;
      Ok(FeatureMatchResult(
        score := Min(raw, 100.0),
        matches := regex.matched + yaraOut.labels,
        yaraMatches := yaraOut.labels,
        regexMatches := regex.matched))
  }

  /** Content with no catalogue or rule match scores 0 and lists nothing. */
  lemma NoMatchScoresZero(yara: Config.YaraConfig, content: ByteString,
                          matchString: (string, string) -> bool, walk: string -> RuleWalk)
    requires |content| <= yara.maxFileSize
    requires forall j :: 0 <= j < |WEBSHELL_PATTERNS| ==> !matchString(WEBSHELL_PATTERNS[j].source, content)
    requires yara.enabled ==> AllMatches(yara.ruleTypes, walk) == []
    ensures FeatureMatch(yara, content, matchString, walk) == Ok(FeatureMatchResult(0.0, [], [], []))
  {
    var r := FeatureMatch(yara, content, matchString, walk);
    if yara.enabled {
      assert MatchYaraRules(yara.ruleTypes, walk).labels == [];
    } else {
      assert r.value.score == 0.0 && r.value.matches == [];
    }
  }
}
