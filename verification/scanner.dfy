/** The scanners' shared behaviour and the manual scanner
    (internal/scanner/scanner.go, internal/scanner/manual_scanner.go).

    A scanner's only state here is its running flag. The file-system check,
    the detection, opening the result store and storing are inputs; a store
    failure is only logged, so the model records what was handed to the
    store rather than whether it got there. Printing is left out. */
module Scanner {
  import opened Outcomes
  import opened Text
  import opened Detector

  datatype ScannerState = ScannerState(isRunning: bool)

  /** What one scan did: its return value, whether the detector ran, and
      the record offered to the result store (with its scan type). */
  datatype ScanReport = ScanReport(status: Status, detectorRan: bool, stored: Option<StoredResult>)

  datatype StoredResult = StoredResult(result: DetectionResult, scanType: string)

  /** The scan type every stored result carries, whichever scanner ran. */
  const MANUAL := "manual"

  /** The record offered to the store when the store could be opened. */
  function Offer(storageOpened: bool, r: DetectionResult): (o: Option<StoredResult>)
    ensures o.Some? <==> storageOpened
    ensures o.Some? ==> o.value == StoredResult(r, MANUAL)
  {
    if storageOpened then Some(StoredResult(r, MANUAL)) else None
  }

  /** `BaseScanner.Scan`: a missing file is an error before the detector
      runs; a detection error is an error; otherwise the result is offered
      to the store and the scan fails exactly when it is a webshell. */
  function Scan(path: string, stat: Status, detect: Result<DetectionResult>, storageOpened: bool)
    : (r: ScanReport)
    ensures r.detectorRan <==> stat.Pass?
    ensures stat.Fail? ==> r.status.Fail? && r.stored.None?
    ensures stat.Pass? && detect.Err? ==> r.status.Fail? && r.stored.None?
    ensures stat.Pass? && detect.Ok? ==> (r.status.Fail? <==> detect.value.isWebshell)
    ensures r.stored.Some? ==> r.stored.value.scanType == MANUAL
    ensures r.stored.Some? <==> stat.Pass? && detect.Ok? && storageOpened
  {
    match stat
    case Fail(e) => ScanReport(Fail("file not found: " + e), false, None)
    case Pass =>
      match detect
      case Err(e) => ScanReport(Fail("detection failed: " + e), true, None)
      case Ok(res) =>
        var offered := Offer(storageOpened, res);
        if res.isWebshell then ScanReport(Fail("webshell detected in file: " + path), true, offered)
        else ScanReport(Pass, true, offered)
  }

  /** Whether the result could be stored never changes what a scan returns. */
  lemma StorageNeverChangesOutcome(path: string, stat: Status, detect: Result<DetectionResult>)
    ensures Scan(path, stat, detect, true).status == Scan(path, stat, detect, false).status
  {
  }

  /** `Stop`, shared by every scanner that does not override it: from idle
      a no-op, from running back to idle; never an error. */
  function Stop(s: ScannerState): (r: (ScannerState, Status))
    ensures !r.0.isRunning && r.1 == Pass
    ensures !s.isRunning ==> r.0 == s
  {
    if !s.isRunning then (s, Pass) else (s.(isRunning := false), Pass)
  }

  lemma StopIdempotent(s: ScannerState)
    ensures Stop(Stop(s).0) == Stop(s)
  {
  }

  const ALREADY_RUNNING := "scanner is already running"

  /** What `ManualScanner.Start` did: the new state, the return value and
      the scan-level effects. */
  datatype StartReport = StartReport(state: ScannerState, status: Status, detectorRan: bool, stored: Option<StoredResult>)

  /** `ManualScanner.Start`: refused while running; otherwise one detection
      of the configured file. Unlike `Scan`, a webshell verdict is not an
      error, and the flag is down again whenever `Start` returns. */
  function ManualStart(s: ScannerState, detect: Result<DetectionResult>, storageOpened: bool)
    : (r: StartReport)
    ensures s.isRunning ==> r == StartReport(s, Fail(ALREADY_RUNNING), false, None)
    ensures !s.isRunning ==> !r.state.isRunning && r.detectorRan
    ensures !s.isRunning ==> (r.status.Pass? <==> detect.Ok?)
    ensures !s.isRunning && detect.Ok? ==> r.stored == Offer(storageOpened, detect.value)
    ensures detect.Err? ==> r.stored.None?
  {
    if s.isRunning then StartReport(s, Fail(ALREADY_RUNNING), false, None)
    else
      var running := s.(isRunning := true);
      match detect
      case Err(e) => StartReport(running.(isRunning := false), Fail("scan failed: " + e), true, None)
      case Ok(res) => StartReport(running.(isRunning := false), Pass, true, Offer(storageOpened, res))
  }

  /** A webshell found by the manual scanner's `Start` is not an error,
      while the same verdict from `Scan` is. */
  lemma ManualStartToleratesWebshell(path: string, res: DetectionResult, storageOpened: bool)
    requires res.isWebshell
    ensures ManualStart(ScannerState(false), Ok(res), storageOpened).status.Pass?
    ensures Scan(path, Pass, Ok(res), storageOpened).status.Fail?
  {
  }

  /** The first-match loop over the configured types: does any of them
      equal the extension exactly? */
  function TypeMatches(ext: string, fileTypes: seq<string>): (b: bool)
    ensures b <==> ext in fileTypes
    decreases |fileTypes|
  {
    if |fileTypes| == 0 then false
    else if ext == fileTypes[0] then true
    else TypeMatches(ext, fileTypes[1..])
  }

  /** `scanSingleFile`: a file whose extension is not a configured type is
      not scanned; otherwise it is scanned once (the error is logged). */
  function ScanSingleFile(path: string, fileTypes: seq<string>, stat: Status,
                          detect: Result<DetectionResult>, storageOpened: bool): (r: Option<ScanReport>)
    ensures r.Some? <==> Ext(path) in fileTypes
    ensures r.Some? ==> r.value == Scan(path, stat, detect, storageOpened)
  {
    if TypeMatches(Ext(path), fileTypes) then Some(Scan(path, stat, detect, storageOpened)) else None
  }

  /** A name ending in a configured ".ext" is scanned, whatever precedes
      the extension; the match is exact, so ".PHP" does not admit ".php". */
  lemma ConfiguredSuffixIsScanned(base: string, ext: string, fileTypes: seq<string>, stat: Status,
                                  detect: Result<DetectionResult>, storageOpened: bool)
    requires ext in fileTypes
    requires |ext| > 0 && ext[0] == '.' && '/' !in ext && '.' !in ext[1..]
    ensures ScanSingleFile(base + ext, fileTypes, stat, detect, storageOpened).Some?
  {
    ExtOfSuffix(base, ext);
  }
}
