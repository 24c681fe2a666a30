/** DeploymentAgent: a deployment followed by a bounded health check, and a
    rollback when the check fails and the configuration asks for one. */
module Deployment {
  import opened Wrappers
  import opened AgentTypes
  import opened Text
  import opened BaseAgent

  const HealthCheckRetries: nat := 3
  const AgentName: string := "DeploymentAgent"
  const RollbackMessage: string := "デプロイ失敗、ロールバック完了"

  datatype Environment = Development | Staging | Production

  datatype DeploymentConfig = DeploymentConfig(
    environment: Environment,
    branch: string,
    healthCheckUrl: Option<string>,
    rollbackOnFailure: bool)

  /** What one call of `checkHealth` did: answered healthy, answered
      unhealthy, or threw. */
  datatype Probe = Healthy | Unhealthy | ProbeThrew(message: string)

  /** `checkHealth` as written is a mock that always answers healthy. */
  function MockProbe(attempt: nat): Probe
  {
    Healthy
  }

  /** `!config.healthCheckUrl` is false only for a non-empty URL. */
  predicate HasUrl(config: DeploymentConfig)
  {
    config.healthCheckUrl.Some? && config.healthCheckUrl.value != ""
  }

  /** The result of `healthCheck` and the probes and waits it made. */
  datatype HealthReport = HealthReport(healthy: bool, probes: nat, waits: nat)

  /** The first attempt from `from` to the last whose probe is healthy. */
  function FirstHealthy(probe: nat -> Probe, from: nat): (r: Option<nat>)
    requires from >= 1
    ensures r.Some? ==> from <= r.value <= HealthCheckRetries && probe(r.value) == Healthy &&
                        forall k :: from <= k < r.value ==> probe(k) != Healthy
    ensures r.None? ==> forall k :: from <= k <= HealthCheckRetries ==> probe(k) != Healthy
    decreases HealthCheckRetries + 1 - from
  {
    if from > HealthCheckRetries then None
    else if probe(from) == Healthy then Some(from)
    else FirstHealthy(probe, from + 1)
  }

  function HealthSpec(config: DeploymentConfig, probe: nat -> Probe): HealthReport
  {
    if !HasUrl(config) then HealthReport(true, 0, 0)
    else match FirstHealthy(probe, 1)
      case Some(a) => HealthReport(true, a, a - 1)
      case None => HealthReport(false, HealthCheckRetries, HealthCheckRetries - 1)
  }

  /** `healthCheck(config)` with `checkHealth` as the probe oracle, called
      with the attempt number; each `sleep` is counted as a wait. */
  method HealthCheck(config: DeploymentConfig, probe: nat -> Probe) returns (report: HealthReport)
    ensures report == HealthSpec(config, probe)
  {
    if !HasUrl(config) {
      return HealthReport(true, 0, 0);
    }
    var probes := 0;
    var waits := 0;
    var attempt := 1;
    while attempt <= HealthCheckRetries
      invariant 1 <= attempt <= HealthCheckRetries + 1
      invariant probes == attempt - 1
      invariant waits == if attempt <= HealthCheckRetries then attempt - 1 else HealthCheckRetries - 1
      invariant forall k :: 1 <= k < attempt ==> probe(k) != Healthy
    {
      probes := probes + 1;
      match probe(attempt) {
        case Healthy =>
          return HealthReport(true, probes, waits);
        case Unhealthy =>
        case ProbeThrew(_) =>
      }
      if attempt < HealthCheckRetries {
        waits := waits + 1;
      }
      attempt := attempt + 1;
    }
    return HealthReport(false, probes, waits);
  }

  /** Without a URL the check passes without probing; otherwise it makes at
      most three probes, waits only between two attempts, stops at the first
      healthy answer, and fails only after three attempts that all failed. */
  lemma HealthSpecFacts(config: DeploymentConfig, probe: nat -> Probe)
    ensures var r := HealthSpec(config, probe);
      r.probes <= HealthCheckRetries && r.waits < HealthCheckRetries &&
      (r.probes == 0 <==> !HasUrl(config)) &&
      (r.probes > 0 ==> r.waits == r.probes - 1) &&
      (!HasUrl(config) ==> r.healthy) &&
      (r.healthy && r.probes > 0 ==> probe(r.probes) == Healthy) &&
      (!r.healthy <==>
         (HasUrl(config) && r.probes == HealthCheckRetries &&
          forall k :: 1 <= k <= HealthCheckRetries ==> probe(k) != Healthy))
  {
    var r := HealthSpec(config, probe);
    if HasUrl(config) && FirstHealthy(probe, 1).Some? {
      var a := FirstHealthy(probe, 1).value;
      assert probe(a) == Healthy;
    }
  }

  /** A probe that throws counts exactly like one that answers unhealthy:
      only which attempts are healthy matters. */
  lemma ThrowIsFailure(config: DeploymentConfig, p: nat -> Probe, q: nat -> Probe)
    requires forall k :: 1 <= k <= HealthCheckRetries ==> (p(k) == Healthy <==> q(k) == Healthy)
    ensures HealthSpec(config, p) == HealthSpec(config, q)
  {
    if HasUrl(config) {
      var a, b := FirstHealthy(p, 1), FirstHealthy(q, 1);
      if a.Some? && b.Some? {
        assert a.value <= b.value;
        assert b.value <= a.value;
      }
    }
  }

  /** What `run` returns as data: the rollback object or the deployment. */
  datatype DeployData =
    | RolledBack(environment: Environment)
    | Deployed(environment: Environment, deploymentId: string, healthCheckPassed: bool)

  function DeployOutcome(config: DeploymentConfig, probe: nat -> Probe, now: int): Outcome<DeployData, ()>
  {
    var healthy := HealthSpec(config, probe).healthy;
    if !healthy && config.rollbackOnFailure then
      Returned(Partial(Some(RolledBack(config.environment)), Some(RollbackMessage), None))
    else
      Returned(Partial(Some(Deployed(config.environment, "deploy-" + IntToString(now), healthy)), None, None))
  }

  /** `run(config)`: the pre-deployment checks and the rollback only log;
      `now` is the clock reading the deployment id is made from. */
  method Run(config: DeploymentConfig, probe: nat -> Probe, now: int) returns (outcome: Outcome<DeployData, ()>)
    ensures outcome == DeployOutcome(config, probe, now)
  {
    var deploymentId := "deploy-" + IntToString(now);
    var report := HealthCheck(config, probe);
    var isHealthy := report.healthy;
    if !isHealthy && config.rollbackOnFailure {
      return Returned(Partial(Some(RolledBack(config.environment)), Some(RollbackMessage), None));
    }
    return Returned(Partial(Some(Deployed(config.environment, deploymentId, isHealthy)), None, None));
  }

  /** The agent rolls back exactly when the health check failed and the
      configuration asks for it; otherwise it reports the deployment with
      the check's result. Either way `execute` reports success, the
      rollback carrying its message as the error. */
  lemma RollbackDecision(config: DeploymentConfig, probe: nat -> Probe, now: int, duration: int)
    ensures var healthy := HealthSpec(config, probe).healthy;
      var r := ResultOf(AgentName, DeployOutcome(config, probe, now), duration);
      r.success && r.data.Some? &&
      (r.data.value.RolledBack? <==> !healthy && config.rollbackOnFailure) &&
      (r.error == Some(RollbackMessage) <==> r.data.value.RolledBack?) &&
      (r.error.None? <==> r.data.value.Deployed?) &&
      (r.data.value.Deployed? ==> r.data.value.healthCheckPassed == healthy) &&
      r.data.value.environment == config.environment
  {
  }

  /** With the mock probe the check always passes and nothing is rolled back. */
  lemma MockNeverRollsBack(config: DeploymentConfig, now: int)
    ensures DeployOutcome(config, MockProbe, now).part.data.value.Deployed?
    ensures DeployOutcome(config, MockProbe, now).part.data.value.healthCheckPassed
  {
    assert HasUrl(config) ==> FirstHealthy(MockProbe, 1) == Some(1);
  }
}
