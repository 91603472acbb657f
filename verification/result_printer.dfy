/** The summary tallies and the colour wrappers of the result printer
    (internal/result/result_printer.go). The colours are Select Graphic
    Rendition control sequences, section 8.3.117 of ECMA-48: CSI (ESC '['),
    a parameter, and the final byte 'm'. The tab-aligned report itself is
    output and is not part of this model. */
module ResultPrinter {
  import opened Detector

  /** The counts `PrintSummary` prints. */
  datatype Summary = Summary(total: nat, webshells: nat, high: nat, medium: nat, low: nat, safe: nat)

  /** The counts of one result. */
  function One(r: DetectionResult): (s: Summary)
    ensures s.total == 1 && s.high + s.medium + s.low + s.safe <= 1
    ensures s.webshells == 1 <==> r.isWebshell
    ensures s.high + s.medium + s.low + s.safe == 1 <==> KnownLevel(r.riskLevel)
  {
    Summary(1, if r.isWebshell then 1 else 0,
      if r.riskLevel == HIGH then 1 else 0,
      if r.riskLevel == MEDIUM then 1 else 0,
      if r.riskLevel == LOW then 1 else 0,
      if r.riskLevel == SAFE then 1 else 0)
  }

  function Add(a: Summary, b: Summary): Summary {
    Summary(a.total + b.total, a.webshells + b.webshells, a.high + b.high,
      a.medium + b.medium, a.low + b.low, a.safe + b.safe)
  }

  const ZERO := Summary(0, 0, 0, 0, 0, 0)

  lemma AddAssociative(x: Summary, y: Summary, z: Summary)
    ensures Add(x, Add(y, z)) == Add(Add(x, y), z)
  {
  }

  lemma ZeroAddsNothing(x: Summary)
    ensures Add(ZERO, x) == x && Add(x, ZERO) == x
  {
  }

  /** The tallies over a list of results, one result after another. */
  function Tally(results: seq<DetectionResult>): (s: Summary)
    ensures s.total == |results|
    decreases |results|
  {
    if |results| == 0 then ZERO else Add(One(results[0]), Tally(results[1..]))
  }

  /** The webshell count is the number of results flagged as webshells:
      at most the total, and zero exactly when none is. */
  lemma {:induction false} TallyWebshells(results: seq<DetectionResult>)
    ensures Tally(results).webshells <= |results|
    ensures Tally(results).webshells == 0 <==> forall i :: 0 <= i < |results| ==> !results[i].isWebshell
    decreases |results|
  {
    if |results| > 0 {
      TallyWebshells(results[1..]);
      var one, rest := One(results[0]), Tally(results[1..]);
      assert Tally(results).webshells == one.webshells + rest.webshells;
      if forall i :: 0 <= i < |results| ==> !results[i].isWebshell {
        assert !results[0].isWebshell;
        forall i | 0 <= i < |results[1..]| ensures !results[1..][i].isWebshell {
          assert results[1..][i] == results[i + 1];
        }
      } else {
        var k :| 0 <= k < |results| && results[k].isWebshell;
        if k > 0 {
          assert results[1..][k - 1].isWebshell;
        }
      }
    }
  }

  /** Each result lands in at most one risk bucket, and in exactly one
      when its level is one of the four. */
  lemma {:induction false} TallyBuckets(results: seq<DetectionResult>)
    ensures var s := Tally(results); s.high + s.medium + s.low + s.safe <= |results|
    ensures (forall i :: 0 <= i < |results| ==> KnownLevel(results[i].riskLevel)) ==>
      var s := Tally(results); s.high + s.medium + s.low + s.safe == |results|
    decreases |results|
  {
    if |results| > 0 {
      TallyBuckets(results[1..]);
      var one, rest := One(results[0]), Tally(results[1..]);
      var s := Tally(results);
      assert s.high + s.medium + s.low + s.safe
        == (one.high + one.medium + one.low + one.safe) + (rest.high + rest.medium + rest.low + rest.safe);
      if forall i :: 0 <= i < |results| ==> KnownLevel(results[i].riskLevel) {
        assert KnownLevel(results[0].riskLevel);
        assert forall i :: 0 <= i < |results[1..]| ==> KnownLevel(results[1..][i].riskLevel) by {
          forall i | 0 <= i < |results[1..]| ensures KnownLevel(results[1..][i].riskLevel) {
            assert results[1..][i] == results[i + 1];
          }
        }
      }
    }
  }

  /** Tallies add up over concatenation. */
  lemma {:induction false} TallyAppend(a: seq<DetectionResult>, b: seq<DetectionResult>)
    ensures Tally(a + b) == Add(Tally(a), Tally(b))
    decreases |a|
  {
    if |a| == 0 {
      assert a + b == b;
      ZeroAddsNothing(Tally(b));
    } else {
      assert (a + b)[0] == a[0];
      assert (a + b)[1..] == a[1..] + b;
      TallyAppend(a[1..], b);
      AddAssociative(One(a[0]), Tally(a[1..]), Tally(b));
    }
  }

  /** One more result adds its own counts. */
  lemma TallySnoc(results: seq<DetectionResult>, i: int)
    requires 0 <= i < |results|
    ensures Tally(results[..i + 1]) == Add(Tally(results[..i]), One(results[i]))
  {
    assert results[..i + 1] == results[..i] + [results[i]];
    TallyAppend(results[..i], [results[i]]);
    TallySingle(results[i]);
  }

  lemma TallySingle(r: DetectionResult)
    ensures Tally([r]) == One(r)
  {
    assert [r][1..] == [];
    ZeroAddsNothing(One(r));
  }

  /** `PrintSummary`'s counting loop: one pass, one result at a time. */
  method Summarize(results: seq<DetectionResult>) returns (s: Summary)
    ensures s == Tally(results)
    ensures s.total == |results|
  {
    s := ZERO;
    var i := 0;
    while i < |results|
      invariant 0 <= i <= |results|
      invariant s == Tally(results[..i])
    {
      TallySnoc(results, i);
      s := Add(s, One(results[i]));
      i := i + 1;
    }
    assert results[..i] == results;
  }

  /** A level outside the four constants is counted in the total only. */
  lemma UnknownLevelCountsOnlyInTotal(r: DetectionResult)
    requires !KnownLevel(r.riskLevel) && !r.isWebshell
    ensures Tally([r]) == Summary(1, 0, 0, 0, 0, 0)
  {
    assert [r][1..] == [];
  }

  // ---- colour ----

  const ESC: char := 27 as char

  /** An SGR control sequence with one parameter. */
  function Sgr(parameter: string): (r: string)
    ensures |r| == |parameter| + 3 && r[0] == ESC && r[1] == '[' && r[|r| - 1] == 'm'
  {
    [ESC, '['] + parameter + "m"
  }

  /** Default rendition: switches every attribute off. */
  const RESET := Sgr("0")
  const RED := "31"
  const GREEN := "32"
  const YELLOW := "33"
  const BLUE := "34"

  /** The foreground colour of a risk level: HIGH red, MEDIUM yellow, LOW
      green, anything else (SAFE included) blue. */
  function LevelColour(level: string): (c: string)
    ensures |c| == 2
    ensures c == RED <==> level == HIGH
    ensures c == YELLOW <==> level == MEDIUM
    ensures c == GREEN <==> level == LOW
    ensures c == BLUE <==> level != HIGH && level != MEDIUM && level != LOW
  {
    if level == HIGH then RED
    else if level == MEDIUM then YELLOW
    else if level == LOW then GREEN
    else BLUE
  }

  /** `colorizeRiskLevel`: the level itself, or the level between its
      colour and a reset. */
  function ColorizeRiskLevel(colorize: bool, level: string): (r: string)
    ensures !colorize ==> r == level
    ensures colorize ==> |r| == |level| + 9 && r[..5] == Sgr(LevelColour(level)) && r[|r| - 4..] == RESET
  {
    if !colorize then level else Sgr(LevelColour(level)) + level + RESET
  }

  /** What a terminal shows: the text with the leading colour and trailing
      reset removed. */
  function Visible(r: string): string
    requires |r| >= 9
  {
    r[5..|r| - 4]
  }

  /** Colouring never changes the text shown, so it is one-to-one. */
  lemma ColorizeShowsLevel(level: string)
    ensures Visible(ColorizeRiskLevel(true, level)) == level
  {
    var c := Sgr(LevelColour(level));
    assert c + level + RESET == c + (level + RESET);
    assert (c + (level + RESET))[5..] == level + RESET;
  }

  lemma ColorizeInjective(colorize: bool, a: string, b: string)
    requires ColorizeRiskLevel(colorize, a) == ColorizeRiskLevel(colorize, b)
    ensures a == b
  {
    if colorize {
      ColorizeShowsLevel(a);
      ColorizeShowsLevel(b);
    }
  }

  /** `colorizeBoolean`: Go's "%v" of the value, or a red "Yes" / green
      "No". */
  function ColorizeBoolean(colorize: bool, value: bool): (r: string)
    ensures !colorize ==> (r == "true" <==> value) && (r == "false" <==> !value)
    ensures colorize ==> |r| >= 9 && r[..5] == Sgr(if value then RED else GREEN) && r[|r| - 4..] == RESET
  {
    if !colorize then (if value then "true" else "false")
    else if value then Sgr(RED) + "Yes" + RESET
    else Sgr(GREEN) + "No" + RESET
  }

  lemma ColorizeBooleanShows(value: bool)
    ensures Visible(ColorizeBoolean(true, value)) == if value then "Yes" else "No"
  {
    var w := if value then "Yes" else "No";
    var c := Sgr(if value then RED else GREEN);
    assert c + w + RESET == c + (w + RESET);
    assert (c + (w + RESET))[5..] == w + RESET;
  }
}
