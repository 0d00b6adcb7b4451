/** The evidence model of crates/core/src/model.rs, as far as the finding lifecycle reads it. */
module Evidence {
  import opened Order

  /** Nanoseconds on one time line. */
  type Time = int

  const SECOND: int := 1_000_000_000

  /** `num_seconds` truncates toward zero. */
  function Seconds(d: int): (s: int) {
    if d >= 0 then d / SECOND else -((-d) / SECOND)
  }

  datatype Check =
    | Preflight | Discovery | Inventory | Kubernetes | Edge | Managed | Queues | Releases
    | Github | Metrics | Logs | Alerts | Slo | Flows

  datatype Health = Healthy | Degraded | Unhealthy | Unknown | ExpectedInactive

  predicate Clears(h: Health) { h.Healthy? || h.ExpectedInactive? }

  datatype Severity = Info | Warning | Error

  function Rank(s: Severity): (r: nat) { if s.Info? then 0 else if s.Warning? then 1 else 2 }

  datatype Coverage =
    | Complete | Denied | Unauthenticated | Unavailable | Unsupported | Missing | Truncated
    | Timeout | Cancelled | Malformed | Stale | InventoryOnly

  datatype Operation = Operation(id: string, coverage: Coverage, observedAt: Time)

  /** Only the payload fields the lifecycle looks at; every other kind is `Other`. */
  datatype Data =
    | JobState(complete: bool, failed: bool)
    | Log(signature: nat, count: nat)
    | LogWindow(complete: bool, gapSeconds: nat, end: Time)
    | Build
    | Provenance(validUntil: Time)
    | Pod(uid: string, container: string, restarts: nat)
    | Workload(node: bool)
    | Other(healthEvidence: bool)

  predicate HealthEvidence(d: Data) {
    match d
    case LogWindow(_, _, _) => false
    case Other(evidence) => evidence
    case _ => true
  }

  datatype Observation = Observation(resource: string, operation: string, observedAt: Time, data: Data)

  datatype CheckResult = CheckResult(target: string, startedAt: Time, operations: seq<Operation>, observations: seq<Observation>)

  /** The retained trigger of a finding. */
  datatype Diagnostic = Diagnostic(firstDetectedAt: Option<Time>, lastDetectedAt: Time, observation: Observation,
                                   previousRestarts: Option<nat>, graceSeconds: nat)

  datatype Finding = Finding(
    id: string, resource: string, rule: string, severity: Severity, evidence: seq<string>,
    observedAt: Time, check: Option<Check>, stale: bool, clearCount: nat, validUntil: Option<Time>,
    diagnostic: Option<Diagnostic>)

  datatype Evaluation = Evaluation(health: Health, findings: seq<Finding>)

  datatype Kind = New | Worsened | Recovered | WentStale | Removed | Reappeared

  datatype Transition = Transition(at: Time, finding: string, kind: Kind)

  datatype Confirmation = Confirmation(count: nat, lastAt: Time)

  datatype Snapshot = Snapshot(
    results: map<string, CheckResult>,
    findings: map<string, Finding>,
    retired: map<string, Transition>,
    confirmations: map<string, Confirmation>,
    health: map<string, Health>,
    freshness: map<string, nat>)

  /** The settings and selectors of one job. */
  datatype Job = Job(
    key: string, target: string, check: Check, assessHealth: bool, revision: string, scope: string,
    selectors: seq<string>, severity: map<string, Severity>,
    freshness: nat, maxFindings: nat, maxAssets: nat, memoryBytes: nat,
    recoverConfirmations: nat, removalConfirmations: nat, nodeGrace: nat, rolloutGrace: nat)

  const U32_MAX: nat := 0xFFFF_FFFF

  /** `saturating_add(1)` on a u32 counter. */
  function Increment(n: nat): (r: nat) { if n >= U32_MAX then U32_MAX else n + 1 }

  function SatSub(a: nat, b: nat): (r: nat) { if b <= a then a - b else 0 }

  /** Abstract sizes: any function of an observation or an operation. */
  datatype Sizes = Sizes(observation: Observation -> nat, operation: Operation -> nat)

  predicate StartsWith(s: string, prefix: string) { prefix <= s }

  predicate EndsWith(s: string, suffix: string) {
    |suffix| <= |s| && s[|s| - |suffix|..] == suffix
  }
}
