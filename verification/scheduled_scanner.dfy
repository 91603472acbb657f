/** The scheduled scanner (internal/scanner/scheduled_scanner.go): it
    parses the configured "HH:MM" start time, waits until that time of day
    comes round, then walks every configured directory and starts one scan
    task per eligible file, again on every tick of the interval.

    Time is an input: `now` is the time of day in nanoseconds, in the local
    zone, on a day without a clock change. The goroutines, the ticker loop
    and the worker pool (whose capacity is `Scan.Realtime.MaxConcurrency`,
    shared with the real-time scanner) are concurrency and are left out;
    what one walk hands to the pool is modelled. */
module ScheduledScanner {
  import opened Outcomes
  import opened Text
  import Config
  import opened FileTree
  import opened Scanner

  // ---- time.Parse("15:04", s) ----

  const LAYOUT := "15:04"

  /** Go's `quote`; escaping of quotes and non-printable characters is not
      modelled. */
  function Quote(s: string): string {
    "\"" + s + "\""
  }

  /** The text of a `time.ParseError` with no message: which part of the
      value could not be read as which part of the layout. */
  function CannotParse(value: string, valueElem: string, layoutElem: string): string {
    "parsing time " + Quote(value) + " as " + Quote(LAYOUT) + ": cannot parse "
      + Quote(valueElem) + " as " + Quote(layoutElem)
  }

  /** The text of a `time.ParseError` that carries a message. */
  function Rejected(value: string, message: string): string {
    "parsing time " + Quote(value) + message
  }

  /** A clock reading as the layout accepts it: one or two hour digits, a
      colon, exactly two minute digits, nothing else. */
  predicate ClockShaped(s: string) {
    || (|s| == 4 && IsDigit(s[0]) && s[1] == ':' && IsDigit(s[2]) && IsDigit(s[3]))
    || (|s| == 5 && IsDigit(s[0]) && IsDigit(s[1]) && s[2] == ':' && IsDigit(s[3]) && IsDigit(s[4]))
  }

  /** The hour and minute a clock-shaped string spells. */
  function HourOf(s: string): nat
    requires ClockShaped(s)
  {
    if |s| == 4 then DigitValue(s[0]) else 10 * DigitValue(s[0]) + DigitValue(s[1])
  }

  function MinuteOf(s: string): nat
    requires ClockShaped(s)
  {
    10 * DigitValue(s[|s| - 2]) + DigitValue(s[|s| - 1])
  }

  /** `time.Parse` with layout "15:04", keeping only hour and minute. The
      hour takes one digit, or two when a second digit follows; its range
      is checked before the colon is looked for. */
  function ParseClock(s: string): (r: Result<(nat, nat)>)
    ensures r.Ok? <==> ClockShaped(s) && HourOf(s) < 24 && MinuteOf(s) < 60
    ensures r.Ok? ==> r.value == (HourOf(s), MinuteOf(s))
  {
    if |s| == 0 || !IsDigit(s[0]) then Err(CannotParse(s, s, "15"))
    else
      var hourLen := if |s| >= 2 && IsDigit(s[1]) then 2 else 1;
      var hour := if hourLen == 2 then 10 * DigitValue(s[0]) + DigitValue(s[1]) else DigitValue(s[0]);
      var rest := s[hourLen..];
      if hour >= 24 then Err(Rejected(s, ": hour out of range"))
      else if |rest| == 0 || rest[0] != ':' then Err(CannotParse(s, rest, ":"))
      else
        var mm := rest[1..];
        if |mm| < 2 || !IsDigit(mm[0]) || !IsDigit(mm[1]) then Err(CannotParse(s, mm, "04"))
        else
          var minute := 10 * DigitValue(mm[0]) + DigitValue(mm[1]);
          if minute >= 60 then Err(Rejected(s, ": minute out of range"))
          else if |mm| > 2 then Err(Rejected(s, ": extra text: " + Quote(mm[2..])))
          else Ok((hour, minute))
  }

  /** Two-digit spelling, as "%02d" writes an hour or minute. */
  function TwoDigits(n: nat): (r: string)
    requires n < 100
    ensures |r| == 2 && IsDigit(r[0]) && IsDigit(r[1])
    ensures 10 * DigitValue(r[0]) + DigitValue(r[1]) == n
  {
    [('0' as int + n / 10) as char, ('0' as int + n % 10) as char]
  }

  /** Every time of day written "HH:MM" parses back to itself. */
  lemma ClockRoundTrip(h: nat, m: nat)
    requires h < 24 && m < 60
    ensures ParseClock(TwoDigits(h) + ":" + TwoDigits(m)) == Ok((h, m))
  {
    var s := TwoDigits(h) + ":" + TwoDigits(m);
    assert s[0] == TwoDigits(h)[0] && s[1] == TwoDigits(h)[1];
    assert s[3] == TwoDigits(m)[0] && s[4] == TwoDigits(m)[1];
  }

  /** A single hour digit is accepted... */
  lemma SingleHourDigit()
    ensures ParseClock("9:05") == Ok((9, 5))
  {
    var a := "9:05";
    assert ClockShaped(a) && HourOf(a) == 9 && MinuteOf(a) == 5;
  }

  /** ... a single minute digit is not... */
  lemma SingleMinuteDigitRejected()
    ensures ParseClock("09:5").Err?
  {
    var b := "09:5";
    assert !ClockShaped(b);
  }

  /** ... and an hour past 23 is reported as out of range. */
  lemma HourOutOfRange()
    ensures ParseClock("24:00") == Err(Rejected("24:00", ": hour out of range"))
  {
    var c := "24:00";
    assert IsDigit(c[0]) && IsDigit(c[1]);
    assert 10 * DigitValue(c[0]) + DigitValue(c[1]) == 24;
  }

  // ---- the first delay ----

  /** A day in nanoseconds. */
  const DAY := 24 * 3600 * 1_000_000_000

  /** Nanoseconds from midnight to hour:minute. */
  function ClockTime(h: nat, m: nat): nat {
    (h * 60 + m) * 60 * 1_000_000_000
  }

  /** The wait before the first scan: to the start time today, or tomorrow
      when today's start time is already past. A start time equal to the
      current time is not past. */
  function FirstDelay(now: int, target: int): (d: int)
    requires 0 <= now < DAY && 0 <= target < DAY
    ensures 0 <= d < DAY
    ensures (now + d) % DAY == target
  {
    if target < now then target + DAY - now else target - now
  }

  /** The delay is the least wait that reaches the start time. */
  lemma FirstDelayLeast(now: int, target: int, d: int)
    requires 0 <= now < DAY && 0 <= target < DAY
    requires 0 <= d < FirstDelay(now, target)
    ensures (now + d) % DAY != target
  {
    if now + d < DAY {
      assert (now + d) % DAY == now + d;
    } else {
      assert (now + d) % DAY == now + d - DAY;
    }
  }

  // ---- start and stop ----

  /** The ticker `Start` creates: its interval and the wait before the
      first scan; `active` goes down when the scanner stops. */
  datatype Ticker = Ticker(interval: int, firstDelay: int, active: bool)

  datatype ScheduledState = ScheduledState(isRunning: bool, ticker: Option<Ticker>)

  const DISABLED := "scheduled scanning is disabled in configuration"

  /** `ScheduledScanner.Start`: the configuration switch, then the running
      flag; the flag goes up before the start time is parsed and stays up
      when it does not parse, with no ticker started. `time.NewTicker`
      panics on an interval that is not positive, so the interval must be
      positive on the one path that creates a ticker. */
  function Start(c: Config.Config, s: ScheduledState, now: int): (r: (ScheduledState, Status))
    requires 0 <= now < DAY
    requires c.scan.schedule.enabled && !s.isRunning && ParseClock(c.scan.schedule.startTime).Ok?
             ==> c.scan.schedule.interval > 0
    ensures !c.scan.schedule.enabled ==> r == (s, Fail(DISABLED))
    ensures c.scan.schedule.enabled && s.isRunning ==> r == (s, Fail(ALREADY_RUNNING))
    ensures c.scan.schedule.enabled && !s.isRunning ==> r.0.isRunning
    ensures c.scan.schedule.enabled && !s.isRunning ==>
      (r.1.Pass? <==> ParseClock(c.scan.schedule.startTime).Ok?)
    ensures c.scan.schedule.enabled && !s.isRunning && r.1.Fail? ==> r.0.ticker == s.ticker
    ensures r.1.Pass? ==> r.0.ticker.Some?
    ensures r.1.Pass? && r.0.ticker.Some? ==>
      var t := r.0.ticker.value;
      && t.active && t.interval == c.scan.schedule.interval
      && 0 <= t.firstDelay < DAY
      && (now + t.firstDelay) % DAY == ClockTime(HourOf(c.scan.schedule.startTime), MinuteOf(c.scan.schedule.startTime))
  {
    if !c.scan.schedule.enabled then (s, Fail(DISABLED))
    else if s.isRunning then (s, Fail(ALREADY_RUNNING))
    else
      var running := s.(isRunning := true);
      match ParseClock(c.scan.schedule.startTime)
      case Err(e) => (running, Fail("invalid start time format: " + e))
      case Ok(hm) =>
        var target := ClockTime(hm.0, hm.1);
        (running.(ticker := Some(Ticker(c.scan.schedule.interval, FirstDelay(now, target), true))), Pass)
  }

  /** `ScheduledScanner.Stop`: from idle a no-op; from running the flag goes
      down and the ticker, if one was started, stops. Never an error. */
  function Stop(s: ScheduledState): (r: (ScheduledState, Status))
    ensures r.1 == Pass && !r.0.isRunning
    ensures !s.isRunning ==> r.0 == s
    ensures s.isRunning && r.0.ticker.Some? ==> !r.0.ticker.value.active
    ensures r.0.ticker.None? <==> s.ticker.None?
  {
    if !s.isRunning then (s, Pass)
    else
      var stopped := match s.ticker
        case None => None
        case Some(t) => Some(t.(active := false));
      (ScheduledState(false, stopped), Pass)
  }

  lemma StopIdempotent(s: ScheduledState)
    ensures Stop(Stop(s).0) == Stop(s)
  {
  }

  /** A start time that does not parse leaves the scanner marked running
      with nothing scheduled; only `Stop` clears it. */
  lemma BadStartTimeStaysRunning(c: Config.Config, now: int)
    requires 0 <= now < DAY
    requires c.scan.schedule.enabled && ParseClock(c.scan.schedule.startTime).Err?
    ensures var r := Start(c, ScheduledState(false, None), now);
      r.0 == ScheduledState(true, None) && r.1.Fail?
      && Start(c, r.0, now).1 == Fail(ALREADY_RUNNING)
      && !Stop(r.0).0.isRunning
  {
  }

  // ---- one walk ----

  /** Whether the walk hands a visited node to a scan task: a file no
      larger than the limit (the limit itself allowed) whose extension
      equals a configured type. */
  predicate Eligible(m: Node, maxFileSize: int, fileTypes: seq<string>) {
    m.File? && m.size <= maxFileSize && Ext(m.path) in fileTypes
  }

  /** The files of a walk that get a task: one task per eligible file, in
      visiting order, however many configured types equal its extension. */
  function Selected(ns: seq<Node>, maxFileSize: int, fileTypes: seq<string>): (tasks: seq<string>)
    ensures |tasks| <= |ns|
    ensures forall p :: p in tasks <==>
      exists k :: 0 <= k < |ns| && Eligible(ns[k], maxFileSize, fileTypes) && ns[k].path == p
  {
    if |ns| == 0 then []
    else
      var m := ns[0];
      var here := if m.File? && m.size <= maxFileSize && TypeMatches(Ext(m.path), fileTypes) then [m.path] else [];
      here + Selected(ns[1..], maxFileSize, fileTypes)
  }

  /** Positions in a sequence's tail, as positions in the sequence. */
  lemma Shifted(rest: seq<nat>, n: nat) returns (shifted: seq<nat>)
    requires forall a :: 0 <= a < |rest| ==> rest[a] < n
    requires forall a, b :: 0 <= a < b < |rest| ==> rest[a] < rest[b]
    ensures |shifted| == |rest|
    ensures forall a :: 0 <= a < |rest| ==> shifted[a] == rest[a] + 1
    ensures forall a :: 0 <= a < |shifted| ==> 1 <= shifted[a] < n + 1
    ensures forall a, b :: 0 <= a < b < |shifted| ==> shifted[a] < shifted[b]
    ensures forall k :: 1 <= k < n + 1 ==> (k in shifted <==> k - 1 in rest)
  {
    shifted := seq(|rest|, a requires 0 <= a < |rest| => rest[a] + 1);
    forall k | 1 <= k < n + 1
      ensures k in shifted <==> k - 1 in rest
    {
      if k - 1 in rest {
        var a :| 0 <= a < |rest| && rest[a] == k - 1;
        assert shifted[a] == k;
      }
    }
  }

  /** Position 0 ahead of increasing positions in `1..n`. */
  lemma FrontIndex(shifted: seq<nat>, n: nat)
    requires n > 0
    requires forall a :: 0 <= a < |shifted| ==> 1 <= shifted[a] < n
    requires forall a, b :: 0 <= a < b < |shifted| ==> shifted[a] < shifted[b]
    ensures forall a :: 0 <= a < |[0] + shifted| ==> ([0] + shifted)[a] < n
    ensures forall a, b :: 0 <= a < b < |[0] + shifted| ==> ([0] + shifted)[a] < ([0] + shifted)[b]
    ensures forall a :: 1 <= a < |[0] + shifted| ==> ([0] + shifted)[a] == shifted[a - 1]
    ensures forall k :: 1 <= k < n ==> (k in [0] + shifted <==> k in shifted)
  {
  }

  /** One step of the walk's selection. */
  lemma SelectedCons(ns: seq<Node>, maxFileSize: int, fileTypes: seq<string>)
    requires |ns| > 0
    ensures Selected(ns, maxFileSize, fileTypes) ==
      (if Eligible(ns[0], maxFileSize, fileTypes) then [ns[0].path] else []) + Selected(ns[1..], maxFileSize, fileTypes)
  {
  }

  /** Exactly one scan task per eligible node, naming its path, in
      visiting order, and no other; `idx` lists those nodes' positions. */
  lemma {:induction false} SelectedInOrder(ns: seq<Node>, maxFileSize: int, fileTypes: seq<string>)
    returns (idx: seq<nat>)
    ensures forall a :: 0 <= a < |idx| ==> idx[a] < |ns|
    ensures forall a, b :: 0 <= a < b < |idx| ==> idx[a] < idx[b]
    ensures forall k :: 0 <= k < |ns| ==> (k in idx <==> Eligible(ns[k], maxFileSize, fileTypes))
    ensures |Selected(ns, maxFileSize, fileTypes)| == |idx|
    ensures forall a :: 0 <= a < |idx| ==> Selected(ns, maxFileSize, fileTypes)[a] == ns[idx[a]].path
    decreases |ns|
  {
    if |ns| == 0 {
      idx := [];
    } else {
      var tailNodes := ns[1..];
      var rest := SelectedInOrder(tailNodes, maxFileSize, fileTypes);
      var shifted := Shifted(rest, |ns| - 1);
      var tail := Selected(tailNodes, maxFileSize, fileTypes);
      SelectedCons(ns, maxFileSize, fileTypes);
      forall k | 1 <= k < |ns|
        ensures k in shifted <==> Eligible(ns[k], maxFileSize, fileTypes)
      {
        assert tailNodes[k - 1] == ns[k];
      }
      forall a | 0 <= a < |shifted|
        ensures tail[a] == ns[shifted[a]].path
      {
        assert tailNodes[rest[a]] == ns[shifted[a]];
      }
      if Eligible(ns[0], maxFileSize, fileTypes) {
        idx := [0] + shifted;
        FrontIndex(shifted, |ns|);
        assert Selected(ns, maxFileSize, fileTypes) == [ns[0].path] + tail;
      } else {
        idx := shifted;
        assert 0 !in idx;
        assert Selected(ns, maxFileSize, fileTypes) == tail;
      }
    }
  }

  /** `scanDirectory`: a root that cannot be stat'ed yields no task (the
      error is only logged); otherwise the eligible files the walk visits. */
  function ScanDirectory(root: string, fs: Lookup, exclude: seq<string>, maxFileSize: int, fileTypes: seq<string>)
    : seq<string>
  {
    match fs(root)
    case Err(_) => []
    case Ok(n) => Selected(Visible(n, exclude), maxFileSize, fileTypes)
  }

  /** `scanAll`: the directories in configured order. */
  function ScanAll(c: Config.Config, fs: Lookup): (tasks: seq<string>)
  {
    ScanDirs(c.scan.directories, fs, c.scan.excludeDirs, c.scan.schedule.maxFileSize, c.scan.fileTypes)
  }

  function ScanDirs(dirs: seq<string>, fs: Lookup, exclude: seq<string>, maxFileSize: int, fileTypes: seq<string>)
    : seq<string>
    decreases |dirs|
  {
    if |dirs| == 0 then []
    else
      ScanDirectory(dirs[0], fs, exclude, maxFileSize, fileTypes)
        + ScanDirs(dirs[1..], fs, exclude, maxFileSize, fileTypes)
  }

  /** A file gets a task exactly when a route to it passes no excluded
      directory, it is within the size limit and its extension is a
      configured type. */
  lemma ScheduledIff(n: Node, exclude: seq<string>, maxFileSize: int, fileTypes: seq<string>, m: Node)
    requires Eligible(m, maxFileSize, fileTypes)
    requires exists route :: NodeAt(n, route) == Some(m) && Clear(n, route, exclude)
    ensures m.path in Selected(Visible(n, exclude), maxFileSize, fileTypes)
  {
    var route :| NodeAt(n, route) == Some(m) && Clear(n, route, exclude);
    RouteIsVisible(n, exclude, route);
    var ns := Visible(n, exclude);
    var k :| 0 <= k < |ns| && ns[k] == m;
  }

  /** Every task is for a visited, eligible file. */
  lemma TasksAreEligible(n: Node, exclude: seq<string>, maxFileSize: int, fileTypes: seq<string>, p: string)
    returns (m: Node)
    requires p in Selected(Visible(n, exclude), maxFileSize, fileTypes)
    ensures m in Visible(n, exclude) && Eligible(m, maxFileSize, fileTypes) && m.path == p
    ensures exists route :: NodeAt(n, route) == Some(m) && Clear(n, route, exclude)
  {
    var ns := Visible(n, exclude);
    var k :| 0 <= k < |ns| && Eligible(ns[k], maxFileSize, fileTypes) && ns[k].path == p;
    m := ns[k];
    VisibleIff(n, exclude, m);
  }

  /** The size limit is inclusive, and a type listed twice still gives one
      task. */
  lemma SizeLimitInclusive(path: string, size: int, fileTypes: seq<string>, exclude: seq<string>)
    requires Ext(path) in fileTypes
    ensures Selected(Visible(File(path, size), exclude), size, fileTypes + fileTypes) == [path]
    ensures Selected(Visible(File(path, size + 1), exclude), size, fileTypes) == []
  {
    assert [File(path, size)][1..] == [];
    assert [File(path, size + 1)][1..] == [];
  }

  /** A configured directory that cannot be stat'ed adds no task and does
      not stop the others. */
  lemma MissingRootSkipped(root: string, others: seq<string>, fs: Lookup, exclude: seq<string>,
                           maxFileSize: int, fileTypes: seq<string>)
    requires fs(root).Err?
    ensures ScanDirs([root] + others, fs, exclude, maxFileSize, fileTypes)
      == ScanDirs(others, fs, exclude, maxFileSize, fileTypes)
  {
    assert ([root] + others)[1..] == others;
  }

  /** Walking two lists of roots is walking them one after the other. */
  lemma {:induction false} ScanDirsAppend(a: seq<string>, b: seq<string>, fs: Lookup, exclude: seq<string>,
                                          maxFileSize: int, fileTypes: seq<string>)
    ensures ScanDirs(a + b, fs, exclude, maxFileSize, fileTypes)
      == ScanDirs(a, fs, exclude, maxFileSize, fileTypes) + ScanDirs(b, fs, exclude, maxFileSize, fileTypes)
    decreases |a|
  {
    if |a| == 0 {
      assert a + b == b;
    } else {
      assert (a + b)[1..] == a[1..] + b;
      ScanDirsAppend(a[1..], b, fs, exclude, maxFileSize, fileTypes);
    }
  }
}
