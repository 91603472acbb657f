/** Interpretation of a syscall trace (internal/detector/behavior_analyzer.go,
    the part after the sandboxed `strace -f ... php <file>` run).

    The sandbox, the tracer and their timeout are process I/O; here the
    trace is an arbitrary string. Go iterates the file-operation and
    sensitive-file tables as maps, in an unspecified order; the model uses
    the declared order and proves that any other order gives the same score
    and the same behaviours up to order. */
module BehaviorAnalyzer {
  import opened Outcomes
  import opened Text

  /** A table entry: the text searched for, its weight, its description. */
  datatype Indicator = Indicator(needle: string, score: real, behavior: string)

  const FILE_OPS: seq<Indicator> := [
    Indicator("unlink(", 30.0, "Attempted to delete files"),
    Indicator("rmdir(", 20.0, "Attempted to delete directories"),
    Indicator("chmod(", 20.0, "Attempted to change file permissions"),
    Indicator("chown(", 20.0, "Attempted to change file ownership"),
    Indicator("symlink(", 15.0, "Attempted to create symbolic links"),
    Indicator("rename(", 10.0, "Attempted to rename files")
  ]

  const DANGEROUS_COMMANDS: seq<string> :=
    ["sh", "bash", "cmd", "powershell", "nc", "netcat", "curl", "wget", "telnet"]

  const SENSITIVE_FILES: seq<Indicator> := [
    Indicator("/etc/passwd", 15.0, "Attempted to access password file"),
    Indicator("/etc/shadow", 25.0, "Attempted to access shadow password file"),
    Indicator("/etc/hosts", 10.0, "Attempted to access hosts file"),
    Indicator("/proc/", 15.0, "Attempted to access process information"),
    Indicator("/dev/", 20.0, "Attempted to access device files")
  ]

  const NETWORK_SCORE: real := 20.0
  const COMMAND_SCORE: real := 25.0
  const NETWORK_BEHAVIOR := "Attempted to establish external network connection"

  function CommandBehavior(cmd: string): string {
    "Attempted to execute dangerous command: " + cmd
  }

  datatype Category = FileOperation | SensitiveFile

  /** Whether a table entry fires on a trace. A file operation is
      suppressed when "/tmp/" or "/var/cache/" appears ANYWHERE in the
      trace, not only in that operation's target. A sensitive file fires on
      `open("` immediately followed by its path prefix. */
  predicate Fires(cat: Category, trace: string, ind: Indicator) {
    match cat
    case FileOperation =>
      Contains(trace, ind.needle) && !Contains(trace, "/tmp/") && !Contains(trace, "/var/cache/")
    case SensitiveFile =>
      Contains(trace, "open(\"" + ind.needle)
  }

  /** The outbound-connection check: loopback exclusion is trace-wide too. */
  predicate NetworkFires(trace: string) {
    Contains(trace, "connect(") && !Contains(trace, "127.0.0.1") && !Contains(trace, "localhost")
  }

  /** The command check, on the lower-cased trace. */
  predicate CommandFires(trace: string, cmd: string) {
    Contains(ToLower(trace), "execve(\"" + cmd + "\"")
  }

  /** The entries of a table that fire, in table order. */
  function Triggered(cat: Category, trace: string, table: seq<Indicator>): (hits: seq<Indicator>)
    ensures |hits| <= |table|
    ensures forall x :: x in hits <==> x in table && Fires(cat, trace, x)
    decreases |table|
  {
    if |table| == 0 then []
    else (if Fires(cat, trace, table[0]) then [table[0]] else []) + Triggered(cat, trace, table[1..])
  }

  /** The commands that fire, in list order. */
  function TriggeredCommands(trace: string, cmds: seq<string>): (hits: seq<string>)
    ensures |hits| <= |cmds|
    ensures forall c :: c in hits <==> c in cmds && CommandFires(trace, c)
    decreases |cmds|
  {
    if |cmds| == 0 then []
    else (if CommandFires(trace, cmds[0]) then [cmds[0]] else []) + TriggeredCommands(trace, cmds[1..])
  }

  /** Sum of the weights of some entries. */
  function Weight(inds: seq<Indicator>): real
    decreases |inds|
  {
    if |inds| == 0 then 0.0 else inds[0].score + Weight(inds[1..])
  }

  /** Their descriptions. */
  function Behaviors(inds: seq<Indicator>): (names: seq<string>)
    ensures |names| == |inds|
    ensures forall k :: 0 <= k < |inds| ==> names[k] == inds[k].behavior
  {
    seq(|inds|, k requires 0 <= k < |inds| => inds[k].behavior)
  }

  predicate PositiveWeights(table: seq<Indicator>) {
    forall k :: 0 <= k < |table| ==> table[k].score > 0.0
  }

  /** Entries with positive weights weigh something exactly when present. */
  lemma {:induction false} WeightPositive(inds: seq<Indicator>)
    requires PositiveWeights(inds)
    ensures Weight(inds) >= 0.0
    ensures Weight(inds) == 0.0 <==> |inds| == 0
    decreases |inds|
  {
    if |inds| > 0 {
      WeightPositive(inds[1..]);
    }
  }

  lemma {:induction false} TriggeredPositive(cat: Category, trace: string, table: seq<Indicator>)
    requires PositiveWeights(table)
    ensures PositiveWeights(Triggered(cat, trace, table))
  {
    var hits := Triggered(cat, trace, table);
    forall k | 0 <= k < |hits| ensures hits[k].score > 0.0 {
      assert hits[k] in hits;
    }
  }

  datatype BehaviorAnalysisResult = BehaviorAnalysisResult(score: real, behaviors: seq<string>)

  /** The uncapped sum that `behaviorAnalyze` accumulates. */
  function RawScore(trace: string): real {
    Weight(Triggered(FileOperation, trace, FILE_OPS))
    + (if NetworkFires(trace) then NETWORK_SCORE else 0.0)
    + COMMAND_SCORE * (|TriggeredCommands(trace, DANGEROUS_COMMANDS)| as real)
    + Weight(Triggered(SensitiveFile, trace, SENSITIVE_FILES))
  }

  /** Descriptions of the commands that fire. */
  function CommandBehaviors(trace: string): (names: seq<string>)
    ensures |names| == |TriggeredCommands(trace, DANGEROUS_COMMANDS)|
  {
    Describe(TriggeredCommands(trace, DANGEROUS_COMMANDS))
  }

  /** The description of each command, in order. */
  function Describe(cmds: seq<string>): (names: seq<string>)
    ensures |names| == |cmds|
    ensures forall k :: 0 <= k < |cmds| ==> names[k] == CommandBehavior(cmds[k])
  {
    seq(|cmds|, k requires 0 <= k < |cmds| => CommandBehavior(cmds[k]))
  }

  /** A description is listed exactly when it describes a listed command. */
  lemma DescribeIff(cmds: seq<string>, b: string)
    ensures b in Describe(cmds) <==> exists c :: c in cmds && b == CommandBehavior(c)
  {
    if b in Describe(cmds) {
      var k :| 0 <= k < |cmds| && Describe(cmds)[k] == b;
      assert cmds[k] in cmds;
    }
    if exists c :: c in cmds && b == CommandBehavior(c) {
      var c :| c in cmds && b == CommandBehavior(c);
      var k :| 0 <= k < |cmds| && cmds[k] == c;
      assert Describe(cmds)[k] == b;
    }
  }

  /** The behaviours in the order the checks run: file operations, the
      network connection, commands, sensitive files. */
  function ObservedBehaviors(trace: string): seq<string> {
    Behaviors(Triggered(FileOperation, trace, FILE_OPS))
    + (if NetworkFires(trace) then [NETWORK_BEHAVIOR] else [])
    + CommandBehaviors(trace)
    + Behaviors(Triggered(SensitiveFile, trace, SENSITIVE_FILES))
  }

  lemma TablesPositive()
    ensures PositiveWeights(FILE_OPS) && PositiveWeights(SENSITIVE_FILES)
  {
  }

  /** Every observed behaviour carries weight: the raw sum is zero exactly
      when nothing was observed. */
  lemma RawScoreZeroIffNothingObserved(trace: string)
    ensures RawScore(trace) >= 0.0
    ensures RawScore(trace) == 0.0 <==> |ObservedBehaviors(trace)| == 0
  {
    var fileHits := Triggered(FileOperation, trace, FILE_OPS);
    var sensHits := Triggered(SensitiveFile, trace, SENSITIVE_FILES);
    var n := |TriggeredCommands(trace, DANGEROUS_COMMANDS)|;
    TablesPositive();
    TriggeredPositive(FileOperation, trace, FILE_OPS);
    TriggeredPositive(SensitiveFile, trace, SENSITIVE_FILES);
    WeightPositive(fileHits);
    WeightPositive(sensHits);
    assert |ObservedBehaviors(trace)|
      == |fileHits| + (if NetworkFires(trace) then 1 else 0) + n + |sensHits|;
    assert COMMAND_SCORE * (n as real) >= 0.0;
    assert COMMAND_SCORE * (n as real) == 0.0 <==> n == 0;
  }

  /** Lines 54-127 of `behaviorAnalyze`: the observed behaviours and the
      score they add up to, forced to 0 when nothing was seen and capped at
      100. */
  function AnalyzeTrace(trace: string): (r: BehaviorAnalysisResult)
    ensures 0.0 <= r.score <= 100.0
    ensures r.score == 0.0 <==> |r.behaviors| == 0
    ensures r.score == Min(RawScore(trace), 100.0)
    ensures r.behaviors == ObservedBehaviors(trace)
    ensures |r.behaviors| <= |FILE_OPS| + 1 + |DANGEROUS_COMMANDS| + |SENSITIVE_FILES|
  {
    var behaviors := ObservedBehaviors(trace);
    var score := if |behaviors| == 0 then 0.0 else RawScore(trace);
    RawScoreZeroIffNothingObserved(trace);
    BehaviorAnalysisResult(Min(score, 100.0), behaviors)
  }

  /** How the sandboxed run went: either setting up the sandbox failed
      with a message, or the tracer ran and produced output, possibly with
      an error from the process. */
  datatype SandboxRun = SetupFailed(message: string) | Ran(output: string, failure: Option<string>)

  /** `behaviorAnalyze`: a set-up failure or a run error other than a
      non-zero exit is an error; otherwise the output is interpreted, even
      when the traced program exited with a failure status. */
  function BehaviorAnalyze(run: SandboxRun): (r: Result<BehaviorAnalysisResult>)
    ensures r.Err? <==> run.SetupFailed? || (run.failure.Some? && !Contains(run.failure.value, "exit status"))
    ensures r.Ok? ==> r.value == AnalyzeTrace(run.output)
    ensures r.Ok? ==> 0.0 <= r.value.score <= 100.0
  {
    match run
    case SetupFailed(msg) => Err(msg)
    case Ran(output, failure) =>
      if failure.Some? && !Contains(failure.value, "exit status") then
        Err("failed to analyze behavior: " + failure.value)
      else Ok(AnalyzeTrace(output))
  }

  /** A traced program that exits with a failure status is still analysed. */
  lemma ExitStatusStillAnalysed(output: string, code: string)
    ensures BehaviorAnalyze(Ran(output, Some("exit status " + code))) == Ok(AnalyzeTrace(output))
  {
    assert StartsWith("exit status " + code, "exit status");
  }

  /** The four description families are told apart by their 14th and
      15th characters: file operations never have 'a' or 'e' there,
      sensitive files always 'a', commands and the network 'e', then 'x'
      for commands and 's' for the network. */
  lemma FamilyTags()
    ensures forall x :: x in FILE_OPS ==> |x.behavior| > 14 && x.behavior[13] != 'a' && x.behavior[13] != 'e'
    ensures forall x :: x in SENSITIVE_FILES ==> |x.behavior| > 14 && x.behavior[13] == 'a'
    ensures forall c :: |CommandBehavior(c)| > 14 && CommandBehavior(c)[13] == 'e' && CommandBehavior(c)[14] == 'x'
    ensures |NETWORK_BEHAVIOR| > 14 && NETWORK_BEHAVIOR[13] == 'e' && NETWORK_BEHAVIOR[14] == 's'
  {
    FileOpTags();
    forall x | x in FILE_OPS
      ensures |x.behavior| > 14 && x.behavior[13] != 'a' && x.behavior[13] != 'e'
    {
      var i :| 0 <= i < |FILE_OPS| && FILE_OPS[i] == x;
    }
    SensitiveTags();
    forall x | x in SENSITIVE_FILES ensures |x.behavior| > 14 && x.behavior[13] == 'a' {
      var i :| 0 <= i < |SENSITIVE_FILES| && SENSITIVE_FILES[i] == x;
    }
    forall c ensures |CommandBehavior(c)| > 14 && CommandBehavior(c)[13] == 'e' && CommandBehavior(c)[14] == 'x' {
      CommandTags(c);
    }
    NetworkTags();
  }

  lemma NetworkTags()
    ensures |NETWORK_BEHAVIOR| > 14 && NETWORK_BEHAVIOR[13] == 'e' && NETWORK_BEHAVIOR[14] == 's'
  {
    var n := "Attempted to establish external network connection";
    assert n == NETWORK_BEHAVIOR;
    assert n[13] == 'e' && n[14] == 's';
  }

  lemma CommandTags(c: string)
    ensures |CommandBehavior(c)| > 14 && CommandBehavior(c)[13] == 'e' && CommandBehavior(c)[14] == 'x'
  {
    var p := "Attempted to execute dangerous command: ";
    assert CommandBehavior(c)[..|p|] == p;
  }

  lemma FileOpTags()
    ensures forall i :: 0 <= i < |FILE_OPS| ==>
      |FILE_OPS[i].behavior| > 14 && FILE_OPS[i].behavior[13] != 'a' && FILE_OPS[i].behavior[13] != 'e'
  {
    assert FILE_OPS[0].behavior[13] == 'd';
    assert FILE_OPS[1].behavior[13] == 'd';
    assert FILE_OPS[2].behavior[13] == 'c';
    assert FILE_OPS[3].behavior[13] == 'c';
    assert FILE_OPS[4].behavior[13] == 'c';
    assert FILE_OPS[5].behavior[13] == 'r';
  }

  lemma SensitiveTags()
    ensures forall i :: 0 <= i < |SENSITIVE_FILES| ==>
      |SENSITIVE_FILES[i].behavior| > 14 && SENSITIVE_FILES[i].behavior[13] == 'a'
  {
  }

  lemma FileOpDescriptionsDistinct()
    ensures forall i, j :: 0 <= i < j < |FILE_OPS| ==> FILE_OPS[i].behavior != FILE_OPS[j].behavior
  {
    assert FILE_OPS[0].behavior[13] == 'd' && FILE_OPS[5].behavior[13] == 'r';
    assert FILE_OPS[3].behavior[14] == 'h' && FILE_OPS[4].behavior[14] == 'r';
  }

  lemma SensitiveDescriptionsDistinct()
    ensures forall i, j :: 0 <= i < j < |SENSITIVE_FILES| ==>
      SENSITIVE_FILES[i].behavior != SENSITIVE_FILES[j].behavior
  {
  }

  lemma CommandDescriptionInjective(c: string, d: string)
    requires CommandBehavior(c) == CommandBehavior(d)
    ensures c == d
  {
    var p := "Attempted to execute dangerous command: ";
    assert c == CommandBehavior(c)[|p|..];
    assert d == CommandBehavior(d)[|p|..];
  }

  /** Membership in the observed list, family by family. */
  lemma ObservedSplit(trace: string, b: string)
    ensures b in AnalyzeTrace(trace).behaviors <==>
      || b in Behaviors(Triggered(FileOperation, trace, FILE_OPS))
      || (NetworkFires(trace) && b == NETWORK_BEHAVIOR)
      || b in CommandBehaviors(trace)
      || b in Behaviors(Triggered(SensitiveFile, trace, SENSITIVE_FILES))
  {
  }

  /** In a table with distinct descriptions, an entry's description is
      listed exactly when the entry fires. */
  lemma DescribedIffFires(cat: Category, trace: string, table: seq<Indicator>, x: Indicator)
    requires x in table
    requires forall i, j :: 0 <= i < j < |table| ==> table[i].behavior != table[j].behavior
    ensures x.behavior in Behaviors(Triggered(cat, trace, table)) <==> Fires(cat, trace, x)
  {
    var hits := Triggered(cat, trace, table);
    if Fires(cat, trace, x) {
      var k :| 0 <= k < |hits| && hits[k] == x;
      assert Behaviors(hits)[k] == x.behavior;
    }
    if x.behavior in Behaviors(hits) {
      var k :| 0 <= k < |hits| && Behaviors(hits)[k] == x.behavior;
      assert hits[k] in table;
      var i :| 0 <= i < |table| && table[i] == hits[k];
      var j :| 0 <= j < |table| && table[j] == x;
      assert i == j;
    }
  }

  /** A description no table entry carries is never listed for it. */
  lemma NotDescribed(cat: Category, trace: string, table: seq<Indicator>, b: string)
    requires forall x :: x in table ==> x.behavior != b
    ensures b !in Behaviors(Triggered(cat, trace, table))
  {
    var hits := Triggered(cat, trace, table);
    forall k | 0 <= k < |hits| ensures Behaviors(hits)[k] != b {
      assert hits[k] in table;
    }
  }

  /** A description is a command description only for a command that
      fired. */
  lemma CommandDescribedIff(trace: string, b: string)
    ensures b in CommandBehaviors(trace) <==>
      exists c :: c in TriggeredCommands(trace, DANGEROUS_COMMANDS) && b == CommandBehavior(c)
  {
    DescribeIff(TriggeredCommands(trace, DANGEROUS_COMMANDS), b);
  }

  /** The outbound-connection behaviour is reported exactly when the trace
      has "connect(" and neither "127.0.0.1" nor "localhost" anywhere. */
  lemma NetworkReportedIff(trace: string)
    ensures NETWORK_BEHAVIOR in AnalyzeTrace(trace).behaviors <==>
      Contains(trace, "connect(") && !Contains(trace, "127.0.0.1") && !Contains(trace, "localhost")
  {
    var b := NETWORK_BEHAVIOR;
    FamilyTags();
    NotDescribed(FileOperation, trace, FILE_OPS, b);
    NotDescribed(SensitiveFile, trace, SENSITIVE_FILES, b);
    CommandDescribedIff(trace, b);
    ObservedSplit(trace, b);
  }

  /** A dangerous command is reported exactly when the lower-cased trace
      has `execve("<name>"`: case-insensitive, once per name. */
  lemma CommandReportedIff(trace: string, cmd: string)
    requires cmd in DANGEROUS_COMMANDS
    ensures CommandBehavior(cmd) in AnalyzeTrace(trace).behaviors <==>
      Contains(ToLower(trace), "execve(\"" + cmd + "\"")
  {
    var b := CommandBehavior(cmd);
    CommandOnlyAsCommand(trace, cmd);
    assert b in CommandBehaviors(trace) <==> cmd in TriggeredCommands(trace, DANGEROUS_COMMANDS) by {
      CommandDescribedIff(trace, b);
      if exists c :: c in TriggeredCommands(trace, DANGEROUS_COMMANDS) && b == CommandBehavior(c) {
        var c :| c in TriggeredCommands(trace, DANGEROUS_COMMANDS) && b == CommandBehavior(c);
        CommandDescriptionInjective(c, cmd);
      }
    }
    ObservedSplit(trace, b);
  }

  /** A command description is never another family's description. */
  lemma CommandOnlyAsCommand(trace: string, cmd: string)
    ensures CommandBehavior(cmd) !in Behaviors(Triggered(FileOperation, trace, FILE_OPS))
    ensures CommandBehavior(cmd) !in Behaviors(Triggered(SensitiveFile, trace, SENSITIVE_FILES))
    ensures CommandBehavior(cmd) != NETWORK_BEHAVIOR
  {
    FamilyTags();
    NotDescribed(FileOperation, trace, FILE_OPS, CommandBehavior(cmd));
    NotDescribed(SensitiveFile, trace, SENSITIVE_FILES, CommandBehavior(cmd));
  }

  lemma {:induction false} CommandsFollowLowerCase(t1: string, t2: string, cmds: seq<string>)
    requires ToLower(t1) == ToLower(t2)
    ensures TriggeredCommands(t1, cmds) == TriggeredCommands(t2, cmds)
    decreases |cmds|
  {
    if |cmds| > 0 {
      CommandsFollowLowerCase(t1, t2, cmds[1..]);
    }
  }

  /** The command check sees the trace only through its lower-cased form. */
  lemma CommandCheckCaseInsensitive(t1: string, t2: string)
    requires ToLower(t1) == ToLower(t2)
    ensures CommandBehaviors(t1) == CommandBehaviors(t2)
  {
    CommandsFollowLowerCase(t1, t2, DANGEROUS_COMMANDS);
  }

  /** A file operation is reported exactly when its name occurs in the
      trace and neither "/tmp/" nor "/var/cache/" occurs anywhere in it. */
  lemma FileOpReportedIff(trace: string, x: Indicator)
    requires x in FILE_OPS
    ensures x.behavior in AnalyzeTrace(trace).behaviors <==>
      Contains(trace, x.needle) && !Contains(trace, "/tmp/") && !Contains(trace, "/var/cache/")
  {
    var b := x.behavior;
    FamilyTags();
    FileOpDescriptionsDistinct();
    DescribedIffFires(FileOperation, trace, FILE_OPS, x);
    NotDescribed(SensitiveFile, trace, SENSITIVE_FILES, b);
    CommandDescribedIff(trace, b);
    ObservedSplit(trace, b);
  }

  /** A temp or cache path anywhere in the trace hides every file
      operation. */
  lemma TempPathHidesFileOps(trace: string)
    requires Contains(trace, "/tmp/") || Contains(trace, "/var/cache/")
    ensures forall x :: x in FILE_OPS ==> x.behavior !in AnalyzeTrace(trace).behaviors
  {
    forall x | x in FILE_OPS ensures x.behavior !in AnalyzeTrace(trace).behaviors {
      FileOpReportedIff(trace, x);
    }
  }

  /** A sensitive file is reported exactly when the trace has `open("`
      immediately followed by its path prefix. */
  lemma SensitiveFileReportedIff(trace: string, x: Indicator)
    requires x in SENSITIVE_FILES
    ensures x.behavior in AnalyzeTrace(trace).behaviors <==> Contains(trace, "open(\"" + x.needle)
  {
    var b := x.behavior;
    FamilyTags();
    SensitiveDescriptionsDistinct();
    DescribedIffFires(SensitiveFile, trace, SENSITIVE_FILES, x);
    NotDescribed(FileOperation, trace, FILE_OPS, b);
    CommandDescribedIff(trace, b);
    ObservedSplit(trace, b);
  }

  // Go map iteration order

  lemma {:induction false} TriggeredCounts(cat: Category, trace: string, a: seq<Indicator>, x: Indicator)
    ensures multiset(Triggered(cat, trace, a))[x] == if Fires(cat, trace, x) then multiset(a)[x] else 0
    decreases |a|
  {
    if |a| > 0 {
      TriggeredCounts(cat, trace, a[1..], x);
      assert a == [a[0]] + a[1..];
    }
  }

  lemma {:induction false} WeightAppend(a: seq<Indicator>, b: seq<Indicator>)
    ensures Weight(a + b) == Weight(a) + Weight(b)
    decreases |a|
  {
    if |a| == 0 {
      assert a + b == b;
    } else {
      assert (a + b)[1..] == a[1..] + b;
      WeightAppend(a[1..], b);
    }
  }

  /** Weights add up to the same total in any order. */
  lemma {:induction false} WeightPermutation(a: seq<Indicator>, b: seq<Indicator>)
    requires multiset(a) == multiset(b)
    ensures Weight(a) == Weight(b)
    decreases |a|
  {
    if |a| == 0 {
      assert |multiset(b)| == 0;
    } else {
      assert a[0] in multiset(b);
      var k :| 0 <= k < |b| && b[k] == a[0];
      var rest := b[..k] + b[k + 1..];
      RemoveFirstMatching(a, b, k);
      WeightPermutation(a[1..], rest);
      WeightWithout(b, k);
    }
  }

  /** Taking the head of `a` and a copy of it out of `b` leaves equal
      multisets. */
  lemma RemoveFirstMatching(a: seq<Indicator>, b: seq<Indicator>, k: nat)
    requires multiset(a) == multiset(b) && |a| > 0 && k < |b| && b[k] == a[0]
    ensures multiset(a[1..]) == multiset(b[..k] + b[k + 1..])
  {
    var rest := b[..k] + b[k + 1..];
    assert b == b[..k] + [b[k]] + b[k + 1..];
    assert a == [a[0]] + a[1..];
    assert multiset(b) == multiset(b[..k]) + multiset{b[k]} + multiset(b[k + 1..]);
    assert multiset(rest) == multiset(b[..k]) + multiset(b[k + 1..]);
    assert multiset(a) == multiset{a[0]} + multiset(a[1..]);
    forall y ensures multiset(a[1..])[y] == multiset(rest)[y] {
      assert multiset(a)[y] == multiset(b)[y];
    }
  }

  /** The weight of a sequence is one entry's weight plus the rest's. */
  lemma WeightWithout(b: seq<Indicator>, k: nat)
    requires k < |b|
    ensures Weight(b) == b[k].score + Weight(b[..k] + b[k + 1..])
  {
    var front, back := b[..k], b[k + 1..];
    assert b == front + [b[k]] + back;
    WeightAppend(front + [b[k]], back);
    WeightAppend(front, [b[k]]);
    WeightAppend(front, back);
    assert Weight([b[k]]) == b[k].score by {
      assert [b[k]][1..] == [];
    }
  }

  lemma BehaviorsAppend(a: seq<Indicator>, b: seq<Indicator>)
    ensures Behaviors(a + b) == Behaviors(a) + Behaviors(b)
  {
  }

  /** Descriptions are the same multiset in any order. */
  lemma {:induction false} BehaviorsPermutation(a: seq<Indicator>, b: seq<Indicator>)
    requires multiset(a) == multiset(b)
    ensures multiset(Behaviors(a)) == multiset(Behaviors(b))
    decreases |a|
  {
    if |a| == 0 {
      assert |multiset(b)| == 0;
    } else {
      assert a[0] in multiset(b);
      var k :| 0 <= k < |b| && b[k] == a[0];
      var rest := b[..k] + b[k + 1..];
      assert b == b[..k] + [b[k]] + b[k + 1..];
      assert a == [a[0]] + a[1..];
      assert multiset(b) == multiset(b[..k]) + multiset{b[k]} + multiset(b[k + 1..]);
      assert multiset(rest) == multiset(b[..k]) + multiset(b[k + 1..]);
      assert multiset(a) == multiset{a[0]} + multiset(a[1..]);
      forall y ensures multiset(a[1..])[y] == multiset(rest)[y] {
        assert multiset(a)[y] == multiset(b)[y];
      }
      assert multiset(a[1..]) == multiset(rest);
      BehaviorsPermutation(a[1..], rest);
      BehaviorsAppend([a[0]], a[1..]);
      BehaviorsAppend(b[..k] + [b[k]], b[k + 1..]);
      BehaviorsAppend(b[..k], [b[k]]);
      BehaviorsAppend(b[..k], b[k + 1..]);
    }
  }

  /** Whatever order Go's map iteration visits a table in, the entries that
      fire weigh the same and describe the same behaviours, up to order. */
  lemma MapOrderIrrelevant(cat: Category, trace: string, table: seq<Indicator>, order: seq<Indicator>)
    requires multiset(order) == multiset(table)
    ensures Weight(Triggered(cat, trace, order)) == Weight(Triggered(cat, trace, table))
    ensures multiset(Behaviors(Triggered(cat, trace, order))) == multiset(Behaviors(Triggered(cat, trace, table)))
  {
    forall x ensures multiset(Triggered(cat, trace, order))[x] == multiset(Triggered(cat, trace, table))[x] {
      TriggeredCounts(cat, trace, order, x);
      TriggeredCounts(cat, trace, table, x);
    }
    assert multiset(Triggered(cat, trace, order)) == multiset(Triggered(cat, trace, table));
    WeightPermutation(Triggered(cat, trace, order), Triggered(cat, trace, table));
    BehaviorsPermutation(Triggered(cat, trace, order), Triggered(cat, trace, table));
  }
}
