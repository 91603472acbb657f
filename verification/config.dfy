/** The configuration record and its validation (internal/config/config.go).

    Only the fields some modelled operation reads are kept; YAML decoding is
    an oracle. Durations are integers (Go nanoseconds), sizes are integers
    (Go int64, unbounded here). */
module Config {
  import opened Outcomes

  datatype ScheduleConfig = ScheduleConfig(
    enabled: bool,
    interval: int,
    startTime: string,
    maxFileSize: int)

  datatype RealtimeConfig = RealtimeConfig(enabled: bool, maxConcurrency: int)

  datatype ScanConfig = ScanConfig(
    directories: seq<string>,
    excludeDirs: seq<string>,
    schedule: ScheduleConfig,
    realtime: RealtimeConfig,
    fileTypes: seq<string>)

  datatype BehaviorConfig = BehaviorConfig(enabled: bool, timeout: int, maxMemoryMB: int)

  datatype MachineLearningConfig = MachineLearningConfig(enabled: bool, threshold: real, batchSize: int)

  datatype YaraConfig = YaraConfig(
    enabled: bool,
    rulesDir: string,
    ruleTypes: seq<string>,
    maxFileSize: int)

  datatype DetectionConfig = DetectionConfig(
    behaviorAnalysis: BehaviorConfig,
    machineLearning: MachineLearningConfig,
    yara: YaraConfig)

  datatype EmailConfig = EmailConfig(
    enabled: bool,
    host: string,
    port: int,
    username: string,
    password: string,
    from: string,
    to: seq<string>)

  datatype SmsConfig = SmsConfig(
    enabled: bool,
    gateway: string,
    apiKey: string,
    template: string,
    phoneList: seq<string>)

  datatype AlertConfig = AlertConfig(email: EmailConfig, sms: SmsConfig)

  datatype Config = Config(
    scan: ScanConfig,
    detection: DetectionConfig,
    alert: AlertConfig,
    signaturePath: string,
    modelPath: string)

  const NO_DIRECTORIES := "no scan directories specified"
  const NO_FILE_TYPES := "no file types specified"
  const NO_SIGNATURE_PATH := "signature path is required"
  const NO_MODEL_PATH := "model path is required when machine learning is enabled"
  const BAD_EMAIL := "invalid email configuration"
  const NO_EMAIL_RECIPIENTS := "no email recipients specified"
  const BAD_SMS := "invalid SMS configuration"
  const NO_SMS_RECIPIENTS := "no SMS recipients specified"

  /** Each requirement a usable configuration meets, one per check. */
  predicate HasDirectories(c: Config) { |c.scan.directories| > 0 }
  predicate HasFileTypes(c: Config) { |c.scan.fileTypes| > 0 }
  predicate HasSignaturePath(c: Config) { c.signaturePath != "" }
  predicate HasModelPathIfNeeded(c: Config) {
    c.detection.machineLearning.enabled ==> c.modelPath != ""
  }
  predicate EmailServerSet(c: Config) {
    c.alert.email.enabled ==> c.alert.email.host != "" && c.alert.email.port != 0
  }
  predicate EmailRecipientsSet(c: Config) {
    c.alert.email.enabled ==> |c.alert.email.to| > 0
  }
  predicate SmsGatewaySet(c: Config) {
    c.alert.sms.enabled ==> c.alert.sms.gateway != "" && c.alert.sms.apiKey != ""
  }
  predicate SmsRecipientsSet(c: Config) {
    c.alert.sms.enabled ==> |c.alert.sms.phoneList| > 0
  }

  /** A configuration the program accepts. */
  predicate Valid(c: Config) {
    && HasDirectories(c) && HasFileTypes(c) && HasSignaturePath(c)
    && HasModelPathIfNeeded(c)
    && EmailServerSet(c) && EmailRecipientsSet(c)
    && SmsGatewaySet(c) && SmsRecipientsSet(c)
  }

  /** `validateConfig`: the checks run in a fixed order and the first one
      that fails is reported. */
  function ValidateConfig(c: Config): (r: Status)
    ensures r.Pass? <==> Valid(c)
    ensures r == Fail(NO_DIRECTORIES) <==> !HasDirectories(c)
    ensures r == Fail(NO_FILE_TYPES) <==> HasDirectories(c) && !HasFileTypes(c)
    ensures r == Fail(NO_SIGNATURE_PATH) <==>
      HasDirectories(c) && HasFileTypes(c) && !HasSignaturePath(c)
    ensures r == Fail(NO_MODEL_PATH) <==>
      HasDirectories(c) && HasFileTypes(c) && HasSignaturePath(c) && !HasModelPathIfNeeded(c)
    ensures r == Fail(BAD_EMAIL) <==>
      HasDirectories(c) && HasFileTypes(c) && HasSignaturePath(c) && HasModelPathIfNeeded(c)
      && !EmailServerSet(c)
    ensures r == Fail(NO_EMAIL_RECIPIENTS) <==>
      HasDirectories(c) && HasFileTypes(c) && HasSignaturePath(c) && HasModelPathIfNeeded(c)
      && EmailServerSet(c) && !EmailRecipientsSet(c)
    ensures r == Fail(BAD_SMS) <==>
      HasDirectories(c) && HasFileTypes(c) && HasSignaturePath(c) && HasModelPathIfNeeded(c)
      && EmailServerSet(c) && EmailRecipientsSet(c) && !SmsGatewaySet(c)
    ensures r == Fail(NO_SMS_RECIPIENTS) <==>
      HasDirectories(c) && HasFileTypes(c) && HasSignaturePath(c) && HasModelPathIfNeeded(c)
      && EmailServerSet(c) && EmailRecipientsSet(c) && SmsGatewaySet(c) && !SmsRecipientsSet(c)
  {
    if |c.scan.directories| == 0 then Fail(NO_DIRECTORIES)
    else if |c.scan.fileTypes| == 0 then Fail(NO_FILE_TYPES)
    else if c.signaturePath == "" then Fail(NO_SIGNATURE_PATH)
    else if c.detection.machineLearning.enabled && c.modelPath == "" then Fail(NO_MODEL_PATH)
    else if c.alert.email.enabled && (c.alert.email.host == "" || c.alert.email.port == 0) then
      Fail(BAD_EMAIL)
    else if c.alert.email.enabled && |c.alert.email.to| == 0 then Fail(NO_EMAIL_RECIPIENTS)
    else if c.alert.sms.enabled && (c.alert.sms.gateway == "" || c.alert.sms.apiKey == "") then
      Fail(BAD_SMS)
    else if c.alert.sms.enabled && |c.alert.sms.phoneList| == 0 then Fail(NO_SMS_RECIPIENTS)
    else Pass
  }

  /** Disabled notifiers are never inspected: any email and SMS settings
      may be swapped in without changing the verdict. */
  lemma DisabledNotifiersIgnored(c: Config, e: EmailConfig, s: SmsConfig)
    requires !c.alert.email.enabled && !e.enabled
    requires !c.alert.sms.enabled && !s.enabled
    ensures ValidateConfig(c.(alert := AlertConfig(e, s))) == ValidateConfig(c)
  {
  }

  /** `LoadConfig`: reading and YAML decoding are oracles; a configuration
      comes back only when it validates. */
  function LoadConfig(read: Result<string>, decode: string -> Result<Config>): (r: Result<Config>)
    ensures r.Ok? ==> Valid(r.value)
    ensures r.Ok? <==> read.Ok? && decode(read.value).Ok? && Valid(decode(read.value).value)
    ensures r.Ok? ==> r.value == decode(read.value).value
  {
    match read
    case Err(e) => Err("failed to read config file: " + e)
    case Ok(data) =>
      match decode(data)
      case Err(e) => Err("failed to parse config file: " + e)
      case Ok(c) =>
        match ValidateConfig(c)
        case Fail(e) => Err("invalid configuration: " + e)
        case Pass => Ok(c)
  }
}
