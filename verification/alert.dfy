/** The alert manager (internal/alert/alert.go): a registry of notifiers by
    type, and a per-path rate limit in front of sending.

    Times are integers in the unit of the rate limit (Go nanoseconds); the
    clock reading is an input. What a notifier's `Send` does for this
    result is an input too (`send`), and so is the order in which Go's map
    iteration visits the registry (`order`). Delivery itself (SMTP, HTTP)
    is not part of this model. */
module Alert {
  import opened Outcomes
  import opened Text
  import opened Detector

  type AlertType = string

  const EMAIL: AlertType := "email"
  const SMS: AlertType := "sms"

  /** A registered notifier; only whether it is enabled matters here. */
  datatype Notifier = Notifier(enabled: bool)

  datatype Manager = Manager(alerts: map<AlertType, Notifier>, rateLimit: int, lastAlerts: map<string, int>)

  /** `NewManager`: no notifiers, no alert sent yet. */
  function NewManager(rateLimit: int): (m: Manager)
    ensures |m.alerts| == 0 && |m.lastAlerts| == 0 && m.rateLimit == rateLimit
  {
    Manager(map[], rateLimit, map[])
  }

  /** `RegisterAlert`: the notifier takes the type's slot, replacing any
      earlier one; every other slot and the rate-limit state stay. */
  function RegisterAlert(m: Manager, t: AlertType, a: Notifier): (r: Manager)
    ensures t in r.alerts && r.alerts[t] == a
    ensures forall u :: u != t ==> (u in r.alerts <==> u in m.alerts)
    ensures forall u :: u != t && u in m.alerts ==> r.alerts[u] == m.alerts[u]
    ensures r.rateLimit == m.rateLimit && r.lastAlerts == m.lastAlerts
  {
    m.(alerts := m.alerts[t := a])
  }

  /** Registering twice under one type keeps only the second notifier. */
  lemma RegisterReplaces(m: Manager, t: AlertType, a: Notifier, b: Notifier)
    ensures RegisterAlert(RegisterAlert(m, t, a), t, b) == RegisterAlert(m, t, b)
  {
  }

  /** An alert for `path` was sent less than the rate limit before `now`. */
  predicate RateLimited(m: Manager, path: string, now: int) {
    path in m.lastAlerts && now - m.lastAlerts[path] < m.rateLimit
  }

  /** `order` visits every registered type exactly once: a possible Go map
      iteration order. */
  predicate IsOrder(order: seq<AlertType>, keys: set<AlertType>) {
    && (forall i, j :: 0 <= i < j < |order| ==> order[i] != order[j])
    && (forall i :: 0 <= i < |order| ==> order[i] in keys)
    && (forall k :: k in keys ==> k in order)
  }

  /** The notifiers that were called and the errors they returned. */
  datatype Delivery = Delivery(sent: seq<AlertType>, errors: seq<string>)

  /** The send loop: each enabled notifier, in iteration order, gets the
      result; failures are collected and do not stop the loop. */
  function Deliver(order: seq<AlertType>, alerts: map<AlertType, Notifier>, send: AlertType -> Status)
    : (d: Delivery)
    requires forall i :: 0 <= i < |order| ==> order[i] in alerts
    ensures forall t :: t in d.sent <==> t in order && alerts[t].enabled
    ensures |d.errors| > 0 <==>
      exists i :: 0 <= i < |order| && alerts[order[i]].enabled && send(order[i]).Fail?
    ensures |d.errors| <= |d.sent| <= |order|
    ensures (forall i :: 0 <= i < |order| ==> !alerts[order[i]].enabled) ==> d == Delivery([], [])
    decreases |order|
  {
    if |order| == 0 then Delivery([], [])
    else
      var t := order[0];
      var rest := Deliver(order[1..], alerts, send);
      assert forall i :: 1 <= i < |order| ==> order[i] == order[1..][i - 1];
      if !alerts[t].enabled then rest
      else match send(t)
        case Pass => Delivery([t] + rest.sent, rest.errors)
        case Fail(e) => Delivery([t] + rest.sent, [e] + rest.errors)
  }

  /** What `SendAlert` did: the manager afterwards, the return value and
      which notifiers were called. */
  datatype SendReport = SendReport(manager: Manager, status: Status, sent: seq<AlertType>)

  /** `SendAlert`: refused within the rate limit of the last alert for the
      same path (an elapsed time equal to the limit is allowed); otherwise
      the timestamp is recorded first, then every enabled notifier is
      called, and the call fails when any of them failed. */
  function SendAlert(m: Manager, result: DetectionResult, now: int, order: seq<AlertType>, send: AlertType -> Status)
    : (r: SendReport)
    requires IsOrder(order, m.alerts.Keys)
    ensures RateLimited(m, result.filePath, now) ==>
      r == SendReport(m, Fail("rate limit exceeded for " + result.filePath), [])
    ensures !RateLimited(m, result.filePath, now) ==>
      && result.filePath in r.manager.lastAlerts && r.manager.lastAlerts[result.filePath] == now
      && r.manager.alerts == m.alerts && r.manager.rateLimit == m.rateLimit
    ensures forall q :: q != result.filePath ==>
      (q in r.manager.lastAlerts <==> q in m.lastAlerts)
      && (q in m.lastAlerts ==> r.manager.lastAlerts[q] == m.lastAlerts[q])
    ensures !RateLimited(m, result.filePath, now) ==>
      forall t :: t in r.sent <==> t in m.alerts && m.alerts[t].enabled
    ensures !RateLimited(m, result.filePath, now) ==>
      (r.status.Fail? <==> exists t :: t in m.alerts && m.alerts[t].enabled && send(t).Fail?)
  {
    if RateLimited(m, result.filePath, now) then
      SendReport(m, Fail("rate limit exceeded for " + result.filePath), [])
    else
      var stamped := m.(lastAlerts := m.lastAlerts[result.filePath := now]);
      var d := Deliver(order, m.alerts, send);
      assert (exists t :: t in m.alerts && m.alerts[t].enabled && send(t).Fail?) ==>
        exists i :: 0 <= i < |order| && m.alerts[order[i]].enabled && send(order[i]).Fail?;
      if |d.errors| > 0 then SendReport(stamped, Fail("alert errors: [" + Join(d.errors, " ") + "]"), d.sent)
      else SendReport(stamped, Pass, d.sent)
  }

  /** An alert exactly one rate limit after the last one goes out. */
  lemma WindowIsStrict(m: Manager, result: DetectionResult, order: seq<AlertType>, send: AlertType -> Status)
    requires IsOrder(order, m.alerts.Keys)
    requires result.filePath in m.lastAlerts
    ensures !RateLimited(m, result.filePath, m.lastAlerts[result.filePath] + m.rateLimit)
    ensures SendAlert(m, result, m.lastAlerts[result.filePath] + m.rateLimit, order, send)
      .manager.lastAlerts[result.filePath] == m.lastAlerts[result.filePath] + m.rateLimit
  {
  }

  /** A second alert for the same path inside the window is refused, even
      when every notifier failed the first time; with a positive limit
      this includes an immediate retry. */
  lemma SecondAlertRefused(m: Manager, result: DetectionResult, now: int, later: int,
                           order: seq<AlertType>, send: AlertType -> Status, send2: AlertType -> Status)
    requires IsOrder(order, m.alerts.Keys)
    requires !RateLimited(m, result.filePath, now)
    requires now <= later < now + m.rateLimit
    ensures var first := SendAlert(m, result, now, order, send);
      SendAlert(first.manager, result, later, order, send2).status
        == Fail("rate limit exceeded for " + result.filePath)
  {
  }

  /** Sending for one path never rate-limits another. */
  lemma OtherPathsUnaffected(m: Manager, result: DetectionResult, now: int, order: seq<AlertType>,
                             send: AlertType -> Status, q: string, later: int)
    requires IsOrder(order, m.alerts.Keys)
    requires q != result.filePath
    ensures RateLimited(SendAlert(m, result, now, order, send).manager, q, later) == RateLimited(m, q, later)
  {
  }

  /** A disabled notifier is never called, and with every notifier
      disabled a send that is not rate-limited succeeds. */
  lemma DisabledNeverCalled(m: Manager, result: DetectionResult, now: int, order: seq<AlertType>,
                            send: AlertType -> Status)
    requires IsOrder(order, m.alerts.Keys)
    requires !RateLimited(m, result.filePath, now)
    requires forall t :: t in m.alerts ==> !m.alerts[t].enabled
    ensures SendAlert(m, result, now, order, send).sent == []
    ensures SendAlert(m, result, now, order, send).status == Pass
  {
  }
}
