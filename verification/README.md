# Webshell detector: a Dafny model of its decision logic

The system scans PHP files for webshells. Each file gets a verdict built from three analyses:

- **Static feature matching.** A fixed catalogue of five regular expressions with weights, plus YARA rules, scored 50 per match.
- **Behaviour analysis.** The file runs in a sandbox under `strace`, and the syscall trace is read for file operations, outbound connections, dangerous commands and sensitive-file reads.
- **A linear machine-learning model.** Five counted features are multiplied by trained weights.

The detector blends the enabled analyses into a weighted mean. It then bands the mean into HIGH / MEDIUM / LOW / SAFE and applies two overrides.

Around the detector sit:

- the scanners: manual, realtime (file-system events) and scheduled (a daily first run, then an interval);
- the configuration validator;
- a per-path rate-limited alert manager;
- the result printer's tallies and colours;
- the SQL statements built for the result store and the scan history;
- the in-memory signature list;
- the offline Python trainer that writes the model file.

The model is functional. Every entity is an immutable datatype and every operation a pure function, or a method where the source loops. Things the model cannot see become parameters:

- file reads, stats and walks;
- the regex engine (a match predicate) and YARA (a list of rule/tag matches per rule directory);
- the sandbox run (its output and failure);
- database statements (success/failure and the rows read);
- JSON decoding (a decode function);
- the clock (an integer `now`).

Go's map iteration order is treated in two ways. The behaviour analyser's trace interpretation visits its tables in one fixed order, the order of the source's map literals. The alert manager takes the order in which the registry's map is visited as an input: `Alert.SendAlert` has an `order` parameter, which `IsOrder` requires to list every registered type exactly once.

Scores are `real`. Go's file content is a `ByteString`: a string whose characters are all below 256.

Modules, in dependency order:

- `Outcomes`: `Option`, `Result`, `Status`.
- `Text`: Go's `strings` helpers, `filepath.Ext`, decimal rendering.
- `Config`: the configuration record and its validator.
- `FileTree`: the file tree and the `SkipDir` walk.
- `MlModel`: the linear model.
- `MlDetector`: feature extraction and scaling.
- `FeatureMatcher`: the pattern catalogue and YARA matching.
- `BehaviorAnalyzer`: trace interpretation.
- `Detector`: the blend and the verdict.
- `Scanner`: the base scan and the manual scanner.
- `RealtimeScanner`, `ScheduledScanner`.
- `Alert`: the rate-limited alert manager.
- `ResultPrinter`: tallies and colours.
- `SqlQuery`, `ResultStorage`, `HistoryQuery`: the statement builders.
- `SignatureManager`: the in-memory signature list.
- `TrainModel`: the offline trainer.

Two facts about the behaviour analyser's code shape the model:

- **Six file-operation entries.** The file-operation table has six entries: unlink, rmdir, chmod, chown, symlink and rename.
- **Trace-wide exclusion.** The `/tmp/` and `/var/cache/` exclusion tests the whole trace, not each target path. The loopback exclusion of the network check also tests the whole trace.

## Model

| member | source | states |
|---|---|---|
| Detector.CalculateTotalScore | internal/detector/detector.go:110-173 | Behaviour score reset to 0 when analysis is on and nothing was observed. ML score divided by 10 when ML is on and nothing was found. Total in [0,100] when the sub-scores are. A feature score above 90 gives HIGH and a webshell. A clean file gives SAFE, not a webshell, total at most 30. A webshell is HIGH, or MEDIUM with feature score above 80. Otherwise the level is the band of the total |
| Detector.TotalIsWeightedMean | internal/detector/detector.go:112-141 | The total equals the weighted mean of the enabled components (0.5 feature, 0.3 behaviour, 0.2 ML), taken after the reset and the dampening |
| Detector.BlendIsMean | internal/detector/detector.go:118-141 | The running sum divided by the running weight equals the independent weighted-mean definition over the enabled components |
| Detector.FullBlend | internal/detector/detector.go:112-141 | With every analysis on, the blend is 0.5·F + 0.3·B + 0.2·M |
| Detector.FeatureOnlyBlend | internal/detector/detector.go:112-141 | With only feature matching on, the blend is the feature score |
| Detector.MeanBounded | internal/detector/detector.go:141 | A weighted mean of scores in [lo,hi] with positive total weight lies in [lo,hi] |
| Detector.Band | internal/detector/detector.go:144-157 | The level is one of the four, and the band flags a webshell only at HIGH, or at MEDIUM with feature score above 80 |
| Detector.BandMonotone | internal/detector/detector.go:144-157 | A higher total never gets a lower band. HIGH exactly from 85, SAFE exactly below 40 |
| Detector.WithBehavior | internal/detector/detector.go:80-89 | Only an enabled, successful behaviour analysis fills in the behaviour score and list; otherwise the result is unchanged |
| Detector.WithMl | internal/detector/detector.go:92-100 | Only an enabled, successful ML prediction fills in the ML score; otherwise the result is unchanged |
| Detector.Assemble | internal/detector/detector.go:78-103 | A failed or disabled behaviour analysis leaves no behaviours and score 0. A failed or disabled ML step leaves ML score 0. The total lies in [0,100] with a known level |
| Detector.Detect | internal/detector/detector.go:57-107 | An error exactly when the read fails or the content exceeds the size limit. Behaviour and ML failures degrade to score 0 and are not errors. The total is in [0,100] |
| Detector.MisfitModelScoresZero | internal/detector/detector.go:92-100 | With a model made for another feature count, even one declaring more features than it has weights, the ML analysis fails and detection goes on with an ML score of 0 |
| Detector.NothingFoundIsSafe | internal/detector/detector.go:166-172 | Content no pattern or rule matches, with no behaviour observed, is SAFE, not a webshell, total at most 30 |
| Detector.StrongFeatureMatchIsWebshell | internal/detector/detector.go:160-163 | A match of the first catalogue entry (weight 100) makes the file a HIGH webshell whatever the other analyses say |
| FeatureMatcher.RegexFrom | internal/detector/feature_matcher.go:113-128 | Each catalogue entry from index i on is listed iff it matches. The score is zero iff nothing is listed and never exceeds the remaining weights |
| FeatureMatcher.RegexIndices | internal/detector/feature_matcher.go:113-128 | The listed sources are those of the matching entries, in strictly increasing catalogue order, and the score is the sum of those entries' weights |
| FeatureMatcher.MatchRegexPatterns | internal/detector/feature_matcher.go:113-128 | A pattern's source is listed iff it matches. The score lies in [0,440] and is zero iff nothing matched |
| FeatureMatcher.MatchedInCatalogueOrder | internal/detector/feature_matcher.go:113-128 | Over the whole catalogue: the matching entries' sources, each listed once, in catalogue order. The score is the sum of their weights |
| FeatureMatcher.SourcesDistinct | internal/detector/feature_matcher.go:29-58 | No two catalogue entries have the same source |
| FeatureMatcher.MatchAddsWeight | internal/detector/feature_matcher.go:119-125 | An entry that starts to match, all other entries unchanged, raises the score by exactly its own weight |
| FeatureMatcher.RegexPresenceOnly | internal/detector/feature_matcher.go:119-125 | Two texts that the same catalogue entries match get the same score and list, however often each occurs |
| FeatureMatcher.StrongPatternReaches100 | internal/detector/feature_matcher.go:29-58 | A match of any weight-100 entry alone brings the regex score to at least 100 |
| FeatureMatcher.YaraFrom | internal/detector/feature_matcher.go:131-203 | One label "rule (tags)" per rule match, in configuration order, and 50 per match before the cap |
| FeatureMatcher.MatchYaraRules | internal/detector/feature_matcher.go:188-201 | The YARA score is 0, 50 or 100 as there are no, one, or two or more matches. One label per match |
| FeatureMatcher.WalkFailuresIgnored | internal/detector/feature_matcher.go:195-197 | Whether a rule-directory walk failed does not change the outcome; matches collected before the failure are kept |
| FeatureMatcher.FeatureMatch | internal/detector/feature_matcher.go:73-110 | An error exactly when the content exceeds the size limit, even with YARA off. The score lies in [0,100]. Matches are the regex matches followed by the YARA matches |
| FeatureMatcher.NoMatchScoresZero | internal/detector/feature_matcher.go:87-107 | Content nothing matches scores 0 with empty match lists |
| BehaviorAnalyzer.Triggered | internal/detector/behavior_analyzer.go:69-76 | An entry is among the hits iff it is in the table and fires on the trace |
| BehaviorAnalyzer.TriggeredCommands | internal/detector/behavior_analyzer.go:88-96 | A command is among the hits iff it is listed and the lower-cased trace holds `execve("<name>"` |
| BehaviorAnalyzer.WeightPositive | internal/detector/behavior_analyzer.go:118-120 | Entries with positive weights sum to zero exactly when there are none |
| BehaviorAnalyzer.RawScoreZeroIffNothingObserved | internal/detector/behavior_analyzer.go:57-120 | The uncapped sum is zero exactly when no behaviour is observed |
| BehaviorAnalyzer.AnalyzeTrace | internal/detector/behavior_analyzer.go:54-127 | The score is the sum of the fired weights capped at 100. It is zero iff nothing is listed. The behaviours are listed in check order |
| BehaviorAnalyzer.BehaviorAnalyze | internal/detector/behavior_analyzer.go:21-128 | An error exactly for a set-up failure, or a run failure other than an exit status. Otherwise the trace's analysis |
| BehaviorAnalyzer.ExitStatusStillAnalysed | internal/detector/behavior_analyzer.go:49-51 | A traced program that exits with a failure status is still analysed |
| BehaviorAnalyzer.NetworkReportedIff | internal/detector/behavior_analyzer.go:79-85 | The connection behaviour is reported iff the trace holds "connect(" and neither "127.0.0.1" nor "localhost" |
| BehaviorAnalyzer.CommandReportedIff | internal/detector/behavior_analyzer.go:88-96 | A dangerous command is reported iff the lower-cased trace holds `execve("<name>"` |
| BehaviorAnalyzer.CommandCheckCaseInsensitive | internal/detector/behavior_analyzer.go:88-89 | Traces equal after lower-casing report the same commands |
| BehaviorAnalyzer.FileOpReportedIff | internal/detector/behavior_analyzer.go:69-76 | A file operation is reported iff its syscall name occurs and neither "/tmp/" nor "/var/cache/" occurs anywhere in the trace |
| BehaviorAnalyzer.TempPathHidesFileOps | internal/detector/behavior_analyzer.go:71 | A temp or cache path anywhere in the trace hides every file operation |
| BehaviorAnalyzer.SensitiveFileReportedIff | internal/detector/behavior_analyzer.go:99-115 | A sensitive file is reported iff the trace holds `open("` immediately followed by its path |
| BehaviorAnalyzer.MapOrderIrrelevant | internal/detector/behavior_analyzer.go:69-115 | Whatever order the map iteration takes, the fired weight and the multiset of descriptions are the same |
| BehaviorAnalyzer.WeightPermutation | internal/detector/behavior_analyzer.go:69-115 | Weights of a permuted list sum to the same total |
| MlDetector.ExtractFeatures | internal/detector/ml_detector.go:33-68 | Always five non-negative features; the first is the byte length of the content |
| MlDetector.FeaturesDetectPresence | internal/detector/ml_detector.go:41-65 | Each count feature is positive iff one of its names occurs in the content |
| MlDetector.EmptyContentZeroVector | internal/detector/ml_detector.go:35-65 | Empty content gives the zero vector |
| MlDetector.ShellExecCountsTwice | internal/detector/ml_detector.go:41-46 | One "shell_exec(" adds 2 to the dangerous-call feature, since it also holds "exec(" |
| MlDetector.CountAllPositiveIff | internal/detector/ml_detector.go:41-46 | The sum of counts over non-empty names is positive iff some name occurs |
| MlDetector.MlDetect | internal/detector/ml_detector.go:15-30 | An error exactly when the model expects another feature count, with "failed to predict: " before the mismatch message. Otherwise 100 × the prediction, in [0,100] |
| MlDetector.EmptyContentScoresLowest | internal/detector/ml_detector.go:15-68 | With non-negative weights, empty content scores no higher than any content |
| MlModel.Clamp01 | pkg/mlmodel/model_loader.go:67-71 | The result lies in [0,1] and equals the input inside that range |
| MlModel.Prediction | pkg/mlmodel/model_loader.go:52-74 | A feature-count mismatch is an error with its message, whatever the weights. Otherwise the clamped dot product, in [0,1] |
| MlModel.Predict | pkg/mlmodel/model_loader.go:52-74 | The accumulating loop computes the prediction: an error iff the count differs, else a value in [0,1] equal to the dot product when that is in range |
| MlModel.DotMonotone | pkg/mlmodel/model_loader.go:61-64 | With non-negative weights, a pointwise larger vector has a larger dot product |
| MlModel.PredictionMonotone | pkg/mlmodel/model_loader.go:52-74 | With non-negative weights, the prediction is monotone in the features |
| MlModel.PredictionIgnoresThreshold | pkg/mlmodel/model_loader.go:52-74 | The threshold plays no part in a prediction |
| MlModel.LoadModel | pkg/mlmodel/model_loader.go:29-49 | Ok iff the file reads and decodes. The weights, threshold and feature count are copied from the file |
| MlModel.SetThreshold | pkg/mlmodel/model_loader.go:120-130 | Values outside [0,1] are refused with the range error. Otherwise only the threshold changes |
| MlModel.SetThresholdIdempotent | pkg/mlmodel/model_loader.go:120-130 | Setting an accepted threshold twice equals setting it once; the model stays usable exactly when it was, and predictions are unchanged |
| Config.ValidateConfig | internal/config/config.go:163-204 | Passes iff the configuration is valid. Each error is reported exactly when its check is the first one to fail, in the source's order |
| Config.DisabledNotifiersIgnored | internal/config/config.go:185-201 | The settings of disabled email and SMS notifiers never affect validation |
| Config.LoadConfig | internal/config/config.go:141-160 | A configuration is returned iff the file reads, decodes and is valid, and it is the decoded one |
| Scanner.Scan | internal/scanner/scanner.go:47-83 | The detector runs iff the stat succeeds. Stat and detection failures are errors. After detection, an error iff the file is a webshell. Results are stored, as "manual", iff storage opened |
| Scanner.StorageNeverChangesOutcome | internal/scanner/scanner.go:66-75 | Whether storage opens never changes the status Scan returns |
| Scanner.Stop | internal/scanner/scanner.go:86-92 | Afterwards the scanner is idle, and an idle scanner is unchanged |
| Scanner.StopIdempotent | internal/scanner/scanner.go:86-92 | Stopping twice is stopping once |
| Scanner.ManualStart | internal/scanner/manual_scanner.go:32-69 | While running: an error and no change. Otherwise the scanner ends idle, and succeeds iff detection succeeds |
| Scanner.ManualStartToleratesWebshell | internal/scanner/manual_scanner.go:44-68 | The manual scanner's Start succeeds on a webshell that the base Scan reports as an error |
| Scanner.TypeMatches | internal/scanner/manual_scanner.go:129-136 | True iff the extension is exactly one of the configured types |
| Scanner.ScanSingleFile | internal/scanner/manual_scanner.go:127-149 | A scan happens iff the file's extension is exactly a configured type |
| Scanner.ConfiguredSuffixIsScanned | internal/scanner/manual_scanner.go:129-148 | A file named with a configured extension is scanned |
| FileTree.VisibleIff | internal/scanner/realtime_scanner.go:56-74 | A node is visited iff a route reaches it through no excluded directory |
| FileTree.ExcludedNeverVisited | internal/scanner/realtime_scanner.go:61-68 | An excluded directory is never visited, and neither is anything below it |
| FileTree.NothingExcludedVisitsAll | internal/scanner/scheduled_scanner.go:112-120 | With no exclusions every node of the tree is visited |
| RealtimeScanner.RegisterDirs | internal/scanner/realtime_scanner.go:56-74 | Directories are registered in walk order up to the first failure. There is no failure iff every registration succeeds |
| RealtimeScanner.RegisterRoots | internal/scanner/realtime_scanner.go:56-74 | The registered directories are always a prefix of all walked directories, root by root in walk order. There is no failure iff every root is found and every walked directory is accepted; then all of them are registered |
| RealtimeScanner.WalkedInAll | internal/scanner/realtime_scanner.go:56-74 | When every root is found, a directory visited by any root's walk is among all walked directories |
| RealtimeScanner.AllWalkedFromRoot | internal/scanner/realtime_scanner.go:56-74 | Every walked directory was visited by the walk of a root that was found |
| RealtimeScanner.RegisteredIffNotHidden | internal/scanner/realtime_scanner.go:61-68 | Every directory reachable without passing an excluded one is registered, and only those are |
| RealtimeScanner.ExcludedRootRegistersNothing | internal/scanner/realtime_scanner.go:63-67 | An excluded root registers nothing at all |
| RealtimeScanner.Start | internal/scanner/realtime_scanner.go:44-80 | Disabled: an error and no change. Running: an error and no change. Otherwise the scanner is running even when registration fails, the failure is reported with the watcher's message, and the watcher stays open or closed as it was |
| RealtimeScanner.StartWatchesEveryVisibleDir | internal/scanner/realtime_scanner.go:44-80 | After a successful start, every directory under a configured root that no excluded directory hides is watched |
| RealtimeScanner.StartWatchesOnlyVisibleDirs | internal/scanner/realtime_scanner.go:44-80 | Whether or not it succeeds, a start adds only directories under a found root that no excluded directory hides |
| RealtimeScanner.DisabledCheckedFirst | internal/scanner/realtime_scanner.go:45-51 | The disabled check comes before the already-running check |
| RealtimeScanner.Stop | internal/scanner/realtime_scanner.go:83-91 | Afterwards the scanner is idle. An idle scanner is unchanged; a running one closes its watcher, which then watches nothing, and reports the close status |
| RealtimeScanner.StopIdempotent | internal/scanner/realtime_scanner.go:83-91 | A second Stop changes nothing and succeeds |
| RealtimeScanner.RestartAfterStop | internal/scanner/realtime_scanner.go:28-41 | The watcher is made once, with the scanner, so after a Stop a Start registers nothing: it succeeds iff every root is found and no directory is walked, and the flag goes up either way |
| RealtimeScanner.StartStopStartFails | internal/scanner/realtime_scanner.go:44-91 | Start, Stop, Start on a configuration that walks any directory ends in an error |
| RealtimeScanner.QualifyingOps | internal/scanner/realtime_scanner.go:103 | The op mask test holds iff the op includes Create or Write |
| RealtimeScanner.Dispatch | internal/scanner/realtime_scanner.go:103-133 | Every task names a qualifying event, and there are no more tasks than events |
| RealtimeScanner.DispatchAppend | internal/scanner/realtime_scanner.go:94-133 | Events are handled independently: dispatching two streams is dispatching each |
| RealtimeScanner.OneTaskPerQualifyingEvent | internal/scanner/realtime_scanner.go:103-133 | A qualifying event spawns exactly one task; any other event spawns none |
| RealtimeScanner.OtherOpsIgnored | internal/scanner/realtime_scanner.go:103-105 | Remove, rename and chmod events never qualify |
| ScheduledScanner.ParseClock | internal/scanner/scheduled_scanner.go:44-50 | Accepts exactly "H:MM" or "HH:MM" with hour below 24 and minute below 60, and returns them |
| ScheduledScanner.ClockRoundTrip | internal/scanner/scheduled_scanner.go:44-50 | A two-digit "HH:MM" rendering of any valid time parses back to that time |
| ScheduledScanner.SingleMinuteDigitRejected | internal/scanner/scheduled_scanner.go:44-50 | A minute with a single digit is refused |
| ScheduledScanner.HourOutOfRange | internal/scanner/scheduled_scanner.go:44-50 | Hour 24 is refused with the hour-out-of-range error |
| ScheduledScanner.FirstDelay | internal/scanner/scheduled_scanner.go:53-58 | The delay lies in [0, 24h), and now plus the delay lands on the target time of day |
| ScheduledScanner.FirstDelayLeast | internal/scanner/scheduled_scanner.go:53-58 | No shorter non-negative delay reaches the target time of day |
| ScheduledScanner.Start | internal/scanner/scheduled_scanner.go:35-81 | Disabled or already running: an error and no change. Otherwise running. A bad start time is an error; success starts a ticker with the first delay and the interval. The interval must be positive only on the path that creates the ticker |
| ScheduledScanner.BadStartTimeStaysRunning | internal/scanner/scheduled_scanner.go:44-50 | An unparsable start time is an error after the scanner has been marked running |
| ScheduledScanner.Stop | internal/scanner/scheduled_scanner.go:84-95 | Afterwards idle with success. An idle scanner is unchanged; a running one's ticker is stopped |
| ScheduledScanner.StopIdempotent | internal/scanner/scheduled_scanner.go:84-95 | Stopping twice is stopping once |
| ScheduledScanner.Selected | internal/scanner/scheduled_scanner.go:123-146 | A path is selected iff it is a visited file within the size limit whose extension is a configured type |
| ScheduledScanner.SelectedInOrder | internal/scanner/scheduled_scanner.go:123-146 | Exactly one scan task per eligible visited file, naming its path, in visiting order, and no other |
| ScheduledScanner.ScheduledIff | internal/scanner/scheduled_scanner.go:105-154 | Every eligible file reachable without passing an excluded directory gets a scan task |
| ScheduledScanner.TasksAreEligible | internal/scanner/scheduled_scanner.go:105-154 | Every scan task is an eligible file reachable without passing an excluded directory |
| ScheduledScanner.SizeLimitInclusive | internal/scanner/scheduled_scanner.go:123-146 | A file exactly at the size limit is scanned once, even with its type listed twice; one byte more and it is skipped |
| ScheduledScanner.MissingRootSkipped | internal/scanner/scheduled_scanner.go:98-110 | A configured directory that cannot be read adds no tasks and does not stop the others |
| ScheduledScanner.ScanDirsAppend | internal/scanner/scheduled_scanner.go:98-102 | A list of directories yields each directory's scan tasks, one directory after another |
| Alert.NewManager | internal/alert/alert.go:39-45 | No notifier, no timestamp, the given rate limit |
| Alert.RegisterAlert | internal/alert/alert.go:48-52 | The type maps to the new notifier; every other type and the timestamps are unchanged |
| Alert.RegisterReplaces | internal/alert/alert.go:48-52 | Registering a type twice keeps only the second notifier |
| Alert.Deliver | internal/alert/alert.go:67-74 | Exactly the enabled notifiers are sent to. There are errors iff some enabled send failed |
| Alert.SendAlert | internal/alert/alert.go:55-80 | Inside the window: an error, no send, no change. Otherwise the path's timestamp becomes now before any send, and the call fails iff an enabled send failed. Other paths' timestamps are unchanged |
| Alert.WindowIsStrict | internal/alert/alert.go:59 | An alert exactly one rate limit after the last one is allowed |
| Alert.SecondAlertRefused | internal/alert/alert.go:58-64 | A second alert for the same path within the window is refused |
| Alert.OtherPathsUnaffected | internal/alert/alert.go:58-64 | An alert for one path never changes whether another path is rate limited |
| Alert.DisabledNeverCalled | internal/alert/alert.go:67-79 | With every notifier disabled, nothing is sent and the call succeeds |
| ResultPrinter.One | internal/result/result_printer.go:117-130 | One result counts once in the total, once as a webshell iff it is one, and in one bucket iff its level is one of the four |
| ResultPrinter.Tally | internal/result/result_printer.go:107-131 | The total equals the number of results |
| ResultPrinter.TallyWebshells | internal/result/result_printer.go:107-120 | Webshells are at most the total, and zero iff no result is a webshell |
| ResultPrinter.TallyBuckets | internal/result/result_printer.go:121-131 | The buckets sum to at most the total, and to the total when every level is one of the four |
| ResultPrinter.TallyAppend | internal/result/result_printer.go:117-131 | Tallies add up over concatenation |
| ResultPrinter.Summarize | internal/result/result_printer.go:106-131 | The counting loop computes the tally of the list |
| ResultPrinter.UnknownLevelCountsOnlyInTotal | internal/result/result_printer.go:121-131 | A result with an unknown level counts in the total and in no bucket |
| ResultPrinter.LevelColour | internal/result/result_printer.go:81-90 | HIGH iff red, MEDIUM iff yellow, LOW iff green, anything else iff blue |
| ResultPrinter.ColorizeRiskLevel | internal/result/result_printer.go:76-91 | Off: the level itself. On: the level between its colour sequence and a reset |
| ResultPrinter.ColorizeShowsLevel | internal/result/result_printer.go:81-90 | Removing the colour and the reset gives back the level |
| ResultPrinter.ColorizeInjective | internal/result/result_printer.go:76-91 | Different levels are never rendered alike |
| ResultPrinter.ColorizeBoolean | internal/result/result_printer.go:94-103 | Off: "true" iff true and "false" iff false. On: red for true and green for false, ending in a reset |
| ResultPrinter.ColorizeBooleanShows | internal/result/result_printer.go:99-102 | With colour the text shown is "Yes" or "No" |
| SqlQuery.Bind | internal/result/result_storage.go:114-129 | Appending a one-placeholder clause with one argument keeps placeholders and arguments balanced |
| SqlQuery.BindIf | internal/result/result_storage.go:114-129 | A set filter appends its clause text and argument, an unset one neither; balance is kept |
| SqlQuery.Interpolate | internal/history/query.go:69-76 | Spliced text adds its own placeholders and no argument |
| ResultStorage.Clauses | internal/result/result_storage.go:114-129 | The text is the clause of each set filter in order (" AND scan_time >= ?" for the start, " AND scan_time <= ?" for the end, then the level and the webshell flag), and the arguments are those filters' values in the same order |
| ResultStorage.BuildQuery | internal/result/result_storage.go:105-135 | The text is the base SELECT, the set filters' clauses in order, " ORDER BY scan_time DESC", then " LIMIT ?" iff the limit is positive. Arguments are the filters' values, then the limit iff positive. Balanced |
| ResultStorage.NoFiltersNoArgs | internal/result/result_storage.go:105-131 | With nothing set, the statement is the base sorted newest first, with no arguments |
| ResultStorage.LevelFilterAddsOne | internal/result/result_storage.go:122-125 | Setting the risk level adds exactly one argument and one placeholder |
| HistoryQuery.Clauses | internal/history/query.go:51-66 | The text is the clause of each set filter in order (" AND start_time >= ?" for the start, " AND end_time <= ?" for the end, then the scan type and the scan ID), and the arguments are those filters' values in the same order |
| HistoryQuery.SortedBy | internal/history/query.go:69-74 | " ORDER BY ", the column, then a space and the direction when one is given, both spliced in verbatim |
| HistoryQuery.OrderClause | internal/history/query.go:69-76 | With a column: " ORDER BY " + column, then " " + direction when the direction is not empty. Without a column: newest first, whatever the direction. Its placeholders are exactly those spliced in |
| HistoryQuery.Paging | internal/history/query.go:79-86 | Appends " LIMIT ?" with the limit iff it is positive, then " OFFSET ?" with the offset iff both are positive |
| HistoryQuery.BuildQuery | internal/history/query.go:40-86 | The text is the base SELECT, the set filters' clauses in order, the sort clause, then the paging clauses. Arguments are the filters' values, then limit and offset. Placeholders equal arguments plus those spliced in by the sort |
| HistoryQuery.BalancedIff | internal/history/query.go:51-86 | The statement is balanced iff no column is given, or neither column nor direction holds '?' |
| HistoryQuery.SpliceUnbalances | internal/history/query.go:69-70 | A sort column "?" leaves a placeholder without an argument |
| HistoryQuery.OffsetIgnoredWithoutLimit | internal/history/query.go:79-86 | Without a positive limit the offset changes nothing |
| HistoryQuery.SortOrderIgnoredWithoutColumn | internal/history/query.go:69-76 | Without a sort column the direction changes nothing |
| HistoryQuery.PagingBindsBoth | internal/history/query.go:79-86 | With a positive limit and offset, the arguments end in the limit, then the offset |
| SignatureManager.FirstWithId | pkg/signature/signature_manager.go:176-181 | The index of the first entry with the ID, or none iff no entry has it |
| SignatureManager.ReplaceFirst | pkg/signature/signature_manager.go:175-181 | Same length. Only the first entry with the ID is replaced; no match, no change |
| SignatureManager.RemoveFirst | pkg/signature/signature_manager.go:195-201 | Only the first entry with the ID is removed and the order kept; no match, no change |
| SignatureManager.AddSignature | pkg/signature/signature_manager.go:142-158 | A failed insert changes nothing and reports it. Otherwise one entry with the new ID is appended after the unchanged old ones |
| SignatureManager.UpdateSignature | pkg/signature/signature_manager.go:161-183 | A failed update changes nothing and reports it. Otherwise the first entry with the ID is replaced |
| SignatureManager.DeleteSignature | pkg/signature/signature_manager.go:186-203 | A failed delete changes nothing and reports it. Otherwise the first entry with the ID is removed |
| SignatureManager.FirstBadRow | pkg/signature/signature_manager.go:110-127 | The first row that failed to scan, or none iff every row scanned |
| SignatureManager.LoadSignatures | pkg/signature/signature_manager.go:96-132 | A failed query or a bad row leaves the list unchanged and is reported. Otherwise the list is replaced by the rows read, and the update time set |
| SignatureManager.NewManager | pkg/signature/signature_manager.go:40-72 | A manager exists iff its first load succeeds, and it carries that load's time |
| SignatureManager.CheckUpdate | pkg/signature/signature_manager.go:206-222 | Request and decode failures are reported. Otherwise an update iff the remote time is strictly after the last update |
| SignatureManager.DeleteUndoesAdd | pkg/signature/signature_manager.go:142-203 | Deleting a just-added signature by its fresh ID restores the list |
| SignatureManager.UpdateKeepsIds | pkg/signature/signature_manager.go:175-181 | An update never changes the set of IDs |
| SignatureManager.ReplaceFirstIdempotent | pkg/signature/signature_manager.go:175-181 | Replacing twice with the same signature is replacing once |
| SignatureManager.DeleteRemovesOne | pkg/signature/signature_manager.go:195-201 | A delete removes exactly one entry when the ID is present and none otherwise |
| SignatureManager.FailedStatementsChangeNothing | pkg/signature/signature_manager.go:150-193 | A failed insert, update or delete leaves the list and the update time unchanged |
| SignatureManager.NoUpdateRightAfterLoad | pkg/signature/signature_manager.go:129-130 | Right after a load, a remote time no later than the load reports no update |
| TrainModel.Encode | tools/train_model.py:12-13 | A text's UTF-8 bytes are at least as many as its characters, exactly as many iff it is ASCII, and the text itself when ASCII |
| TrainModel.Universal | tools/train_model.py:12-13 | Text mode's newline translation leaves no carriage return, never lengthens the text, keeps its length iff it holds no "\r\n", and changes nothing when there is no carriage return |
| TrainModel.PyFeatures | tools/train_model.py:15-38 | Five non-negative features, the first the character length |
| TrainModel.SameNameLists | tools/train_model.py:21-34 | The trainer's three name lists and its marker equal the Go extractor's, in the same order |
| TrainModel.ExtractFile | tools/train_model.py:9-41 | None iff the file cannot be read, else the features of its text after newline translation |
| TrainModel.AgreeOnAscii | tools/train_model.py:12-38 | On ASCII text without carriage returns the trainer's and the Go detector's feature vectors are equal |
| TrainModel.LengthFeatureDiffers | tools/train_model.py:12-18 | The Go length feature is at least the trainer's, and equal iff the text is ASCII and holds no "\r\n" |
| TrainModel.AccentedLetter | tools/train_model.py:17-18 | "é" is length 2 for the Go detector and 1 for the trainer |
| TrainModel.WindowsLineEnding | tools/train_model.py:12-18 | A file holding "\r\n" is length 2 for the Go detector and 1 for the trainer |
| TrainModel.Sample | tools/train_model.py:49-56 | One sample and one label per kept file, every label the walk's |
| TrainModel.SampleComplete | tools/train_model.py:49-56 | Every readable ".php" file contributes its features |
| TrainModel.SampleSound | tools/train_model.py:49-56 | Every sample comes from a readable ".php" file |
| TrainModel.CollectSamples | tools/train_model.py:43-68 | The normal samples come first with label 0 and the webshell samples after with label 1, one per kept file |
| TrainModel.SkippedFilesAddNothing | tools/train_model.py:51-54 | Non-PHP or unreadable files add no samples |
| TrainModel.SaveModelForGo | tools/train_model.py:70-76 | The weights, threshold 0.5, and a feature count equal to the number of weights |
| TrainModel.SavedModelLoads | tools/train_model.py:72-76 | A saved model loads into a model the Go predictor can use, with threshold 0.5. With five weights every file gets an ML score |

## Left out

- **Sandboxed tracing.** The temp directory, the `strace`/`php` subprocess and the timeout are process I/O. The sandbox run is a parameter, and only the interpretation of its output is modelled.
- **Go `regexp` semantics** of the five pattern bodies. A pattern match is an uninterpreted predicate.
- **YARA compilation, memory scanning and the rule-directory walk.** These are a foreign library. Each rule type's walk is a parameter returning its matches and whether it failed.
- **Concurrency.** Goroutines, the worker pool channel and its capacity, the wait group, the ticker loop, the fsnotify event loop and unsynchronised `isRunning` reads are not modelled. Only the flag transitions and the file filters are. The pool capacity (taken from the realtime `MaxConcurrency` setting even in the scheduled scanner) therefore has no counterpart.
- **SQLite and JSON.** Statements, transactions and row decoding become success/failure and row parameters. Out of scope: executing the result and history queries, reading their rows, `StoreResult`, `GetStatistics`, `history.go`, `maintenance.go`, the signature table setup, `UpdateFromFile`, `UpdateFromURL` and `updateFromReader`. `GetSignatures` hands out the list, which is a value here, so its aliasing is not modelled.
- **Model files.** `UpdateModel`, `copyFile` and `GetModelInfo` in the model loader copy or describe files and are not modelled.
- **Alert delivery.** Email and SMS sending (SMTP, TLS, HTTP, templates) are a `send` parameter.
- **The command line** (`cmd/main.go`) and `PrintResult`'s tabular output are not modelled.
- **Floating point.** Scores are exact reals. IEEE-754 rounding at the thresholds (85, 70, 40, 30, 90, 80) may differ.
- **Time.** Times are integers. Durations (the alert rate limit, the schedule interval) are Go nanoseconds, and the scheduled scanner's time of day is nanoseconds since midnight. Time zones and daylight saving are not modelled.
- **Training.** sklearn training and evaluation in the trainer's `main` are not modelled.
- **File-system walks.** A walk is a tree of directories and files. An error inside the tree is not modelled, only a root that cannot be read.
- **Other detail.**
  - Unused configuration fields have no effect.
  - The behaviour and ML timeouts are not modelled.
  - Go's `%q` quoting in the start-time error uses plain double quotes.
- MlModel.Prediction: requires that the weights cover the feature count only for a vector of that length. That is the one input on which Go indexes past the weights and panics. The command line may also run with no model at all. Neither panic is modelled.
- MlModel.Predict: the same requirement as Prediction.
- MlDetector.MlDetect: requires a usable model only when it declares five features, the one case in which Prediction needs it.
- Detector.Detect: with machine learning on, requires a usable model only when it declares five features, as for MlDetect.
- ScheduledScanner.Start: requires a positive interval when the call would create a ticker (enabled, idle, start time parses), because `time.NewTicker` panics otherwise. It also requires `now` within one day, because `now` is the time of day in nanoseconds.
- Text.ToLower: lowers ASCII letters only; Go's `strings.ToLower` also folds other Unicode letters, which none of the searched names contain.
- TrainModel.ExtractFile: the text is given already decoded, so Python's dropping of undecodable bytes is not modelled.
- TrainModel.AgreeOnAscii: proves agreement only for ASCII text without carriage returns. For other text only the length feature is related (LengthFeatureDiffers); the four counts are not compared.
- TrainModel.LengthFeatureDiffers: relates only the length feature; the counts after newline translation are not compared with Go's.
- BehaviorAnalyzer.AnalyzeTrace: visits the tables in one fixed order, where Go's map iteration order varies. Only the fired weight and the multiset of descriptions are proved independent of that order (MapOrderIrrelevant); the listed order of behaviours is not.
- TrainModel.Sample: `os.walk` order is taken as the given file order.
- RealtimeScanner.Start: once the watcher is closed, every `Add` fails with the constant message `WATCHER_CLOSED`. It stands for the error text fsnotify returns, which is not part of this model.
