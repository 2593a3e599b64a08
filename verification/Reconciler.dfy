/**
  The reconciler as the code has it: methods that change the stored objects call by call, and
  return at the first call that fails. Reconcile is proved to do what Rotation.Step says.
 */
module Reconciler {
  import opened Options
  import opened Naming
  import opened Policy
  import opened PodTemplate
  import opened ProbeJob
  import opened Conditions
  import opened Rotation

  class Cluster {
    const policy: PolicySpec
    var status: Status
    var secrets: map<string, Labels>
    var template: Template
    var generation: nat
    var canary: Option<Template>
    var isolated: bool
    var jobs: map<string, Job>
    ghost var history: History

    ghost function Abs(): State
      reads this
    {
      State(status, secrets, template, generation, canary, isolated, jobs, history)
    }

    constructor (policy: PolicySpec, secrets: map<string, Labels>, template: Template, generation: nat)
      ensures this.policy == policy
      ensures Abs() == State(Status("", "", 0, []), secrets, template, generation, None, false, map[], History({}, [], false, {}))
    {
      this.policy, this.secrets, this.template, this.generation := policy, secrets, template, generation;
      status, canary, isolated, jobs := Status("", "", 0, []), None, false, map[];
      history := History({}, [], false, {});
    }

    /** determineState: the phase a status stands for. */
    method EvaluateState() returns (phase: Phase)
      ensures phase == DetermineState(status)
    {
      if status.desired == "" {
        return Idle;
      }
      if IsTrue(status.conditions, RolledBack) {
        return At(RolledBack);
      }
      if Has(status.conditions, Validating) {
        return At(Validating);
      }
      if Has(status.conditions, RolloutProgressing) {
        return At(RolloutProgressing);
      }
      if Has(status.conditions, CanaryProvisioning) {
        return At(CanaryProvisioning);
      }
      if Has(status.conditions, RevisionPrepared) {
        return At(RevisionPrepared);
      }
      var first := FindFirstTrue(status.conditions);
      return At(if first.Some? then first.value else RevisionPrepared);
    }

    /** Sets the condition on the working copy and writes the copy back, if the API accepts it. */
    method UpdateStatus(working: Status, kind: ConditionType, truth: Truth, c: Answers) returns (ok: bool)
      modifies this`status
      ensures ok == c.writeStatus
      ensures Abs() == Persist(old(Abs()), With(working, kind, truth), c)
    {
      var updated := working.(conditions := Set(working.conditions, kind, truth));
      ok := c.writeStatus;
      if ok {
        status := updated;
      }
    }

    /** Creates the secret of the fetched revision; one that exists already counts as created. */
    method MaterializeSecretRevision(c: Answers) returns (hash: Option<Revision>)
      modifies this`secrets
      ensures hash == if c.createSecret then c.upstream else None
      ensures Abs() == if hash.Some? then old(Abs()).(secrets := Materialized(policy, old(secrets), hash.value)) else old(Abs())
    {
      if c.upstream.None? {
        return None;
      }
      var secretName := SecretName(policy.target, GetVaultObjectName(policy.source), c.upstream.value);
      if !c.createSecret {
        return None;
      }
      if secretName !in secrets {
        secrets := secrets[secretName := Labels(policy.name, policy.target, c.upstream.value)];
      }
      return c.upstream;
    }

    /** Deletes the policy's revision secrets that are neither current nor desired; failed deletes are ignored. */
    method GcOldSecretRevisions(working: Status, c: Answers)
      modifies this`secrets
      ensures Abs() == old(Abs()).(secrets := Collected(policy, working, old(secrets), c))
    {
      if !c.listSecrets {
        return;
      }
      var listed := set n | n in secrets && secrets[n].target == policy.target && secrets[n].policy == policy.name;
      var left := listed;
      while left != {}
        invariant left <= listed && left <= secrets.Keys <= old(secrets).Keys
        invariant forall n :: n in secrets ==> secrets[n] == old(secrets)[n]
        invariant forall n :: n in old(secrets) && (n !in listed || n in left) ==> n in secrets
        invariant forall n :: n in listed - left ==>
          (n in secrets <==> !(Collectable(policy, working, old(secrets)[n]) && n !in c.undeletable))
      {
        var n :| n in left;
        left := left - {n};
        var revision := secrets[n].revision;
        if revision != working.desired && revision != working.current {
          if n !in c.undeletable {
            secrets := secrets - {n};
          }
        }
      }
      assert secrets == Collected(policy, working, old(secrets), c);
    }

    method CleanupCanaryResources(c: Answers) returns (ok: bool)
      modifies this`canary, this`isolated, this`jobs
      ensures Abs() == CleanedUp(policy, old(Abs()), c)
    {
      if !c.deleteCanary {
        return false;
      }
      canary := None;
      if !c.deleteNetpol {
        return false;
      }
      isolated := false;
      if c.listJobs {
        var listed := set n | n in jobs && jobs[n].policy == policy.name;
        var left := listed;
        while left != {}
          invariant canary.None? && !isolated
          invariant left <= listed && left <= jobs.Keys <= old(jobs).Keys
          invariant forall n :: n in jobs ==> jobs[n] == old(jobs)[n]
          invariant forall n :: n in old(jobs) && (n !in listed || n in left) ==> n in jobs
          invariant forall n :: n in listed - left ==> (n in jobs <==> n in c.undeletableJobs)
        {
          var n :| n in left;
          left := left - {n};
          if n !in c.undeletableJobs {
            jobs := jobs - {n};
          }
        }
        assert jobs == map n | n in old(jobs) && (old(jobs)[n].policy != policy.name || n in c.undeletableJobs) :: old(jobs)[n];
      }
      return true;
    }

    /** Patches the fetched workload, whose template is rewritten in a copy first. */
    method PatchWorkload(working: Status, c: Answers) returns (ok: bool)
      requires working.current == status.current && working.desired == status.desired
      modifies this`template, this`generation, this`history
      ensures ok == c.patch
      ensures Abs() == if ok then Patched(policy, old(Abs())) else old(Abs())
    {
      var newSecretName := SecretName(policy.target, GetVaultObjectName(policy.source), working.desired);
      var fetched := new PodTemplate(template);
      fetched.Mutate(BindingOf(policy), working.current, working.desired, newSecretName);
      var rewritten := fetched.Value();
      ok := c.patch;
      if ok {
        if rewritten != template {
          generation := generation + 1;
        }
        template := rewritten;
        history := history.(patches := history.patches + [working.desired], cyclePatched := true);
      }
    }

    method PromoteTargetWorkload(working: Status, c: Answers) returns (ok: bool)
      requires working.current == status.current && working.desired == status.desired
      modifies this`template, this`generation, this`history, this`secrets
      ensures ok == (ResolveKind(policy.kind).Some? && c.fetchTarget && c.patch)
      ensures Abs() ==
        if ok then
          var s1 := Patched(policy, old(Abs()));
          s1.(secrets := Collected(policy, s1.status, s1.secrets, c))
        else old(Abs())
    {
      if ResolveKind(policy.kind).None? {
        return false;
      }
      if !c.fetchTarget {
        return false;
      }
      ok := PatchWorkload(working, c);
      if ok {
        GcOldSecretRevisions(working, c);
      }
    }

    /** Runs the probes in order and stops at the first that fails or has to be waited for. */
    method ReconcileValidationProbes(c: Answers) returns (outcome: ProbeOutcome)
      modifies this`jobs, this`history
      ensures outcome == RunProbes(policy, old(Abs()), c).outcome
      ensures Abs() == Probed(old(Abs()), RunProbes(policy, old(Abs()), c))
    {
      ghost var r := RunProbes(policy, Abs(), c);
      outcome := Passed;
      if |policy.probes| != 0 {
        var secretName := SecretName(policy.target, GetVaultObjectName(policy.source), status.desired);
        if !c.getSecret || secretName !in secrets {
          outcome := Refused;
        } else {
          var i := 0;
          while i < |policy.probes|
            invariant 0 <= i <= |policy.probes|
            invariant outcome.Passed?
            invariant Abs() == old(Abs()).(jobs := jobs, history := old(history).(jobWins := history.jobWins))
            invariant r == ProbesFrom(policy, status, jobs, history.jobWins, c, i)
          {
            var answer := AnswerOf(c, i);
            outcome := RunProbe(policy.probes[i], answer, secretName, c, i, r);
            if !outcome.Passed? {
              break;
            }
            i := i + 1;
          }
        }
      }
      history := history.(passed := if outcome.Passed? then history.passed + {status.desired} else history.passed);
    }

    /** One probe of the list; `r` is what the whole list comes to. */
    method RunProbe(probe: Probe, answer: ProbeAnswer, secretName: string, c: Answers, ghost i: nat,
                    ghost r: ProbeResult) returns (outcome: ProbeOutcome)
      requires i < |policy.probes| && probe == policy.probes[i] && answer == AnswerOf(c, i)
      requires secretName == SecretOf(policy, status.desired)
      requires r == ProbesFrom(policy, status, jobs, history.jobWins, c, i)
      modifies this`jobs, this`history
      ensures history == old(history).(jobWins := history.jobWins)
      ensures outcome.Passed? ==> r == ProbesFrom(policy, status, jobs, history.jobWins, c, i + 1)
      ensures !outcome.Passed? ==> r == ProbeResult(outcome, jobs, history.jobWins)
    {
      if probe.JobProbe? {
        if probe.spec.None? {
          return Refused;
        }
        var jobName := DeriveProbeJobName(policy.name, secretName);
        if !answer.jobGet {
          return Refused;
        }
        if jobName !in jobs {
          var newJob := BuildProbeJob(
            policy.name, BindingOf(policy), status.current, status.desired, probe.spec.value, secretName);
          if !answer.jobCreate {
            return Refused;
          }
          jobs := jobs[jobName := newJob];
          return Waiting;
        }
        var currentJob := jobs[jobName];
        var state := EvaluateJobStatus(answer.jobStatus);
        match state {
          case Running =>
            return Waiting;
          case Succeeded =>
            if answer.jobDelete {
              jobs := jobs - {jobName};
            }
            history := history.(jobWins := history.jobWins + {currentJob});
            return Passed;
          case _ =>
            if answer.jobDelete {
              jobs := jobs - {jobName};
            }
            return Refused;
        }
      }
      match answer.network {
        case EndpointError =>
          return Refused;
        case AwaitingCanary =>
          return Waiting;
        case Rejected =>
          return Refused;
        case Accepted =>
          return Passed;
      }
    }

    // -------------------------------------------------------------- the phases

    method StartCycle(working: Status, hash: string, c: Answers)
      requires working.current == status.current
      requires Remove(working.conditions, CircuitBreakerTripped) == Remove(status.conditions, CircuitBreakerTripped)
      modifies this`status, this`history
      ensures Abs() == BeginCycle(old(Abs()), hash, c)
    {
      var st := working.(failures := 0);
      st := Without(st, CircuitBreakerTripped);
      st := Without(st, RolledBack);
      st := Without(st, Promoting);
      st := Without(st, Validating);
      st := Without(st, CanaryProvisioning);
      st := st.(desired := hash);
      var ok := UpdateStatus(st, RevisionPrepared, True, c);
      if ok {
        history := history.(cyclePatched := false);
      }
    }

    method ProvisionTarget(c: Answers)
      modifies this`status, this`template, this`generation, this`canary, this`isolated, this`history
      ensures Abs() == Provision(policy, old(Abs()), c)
    {
      var kind := ResolveKind(policy.kind);
      if kind.None? {
        return;
      }
      if !c.fetchTarget {
        return;
      }
      var secretName := SecretName(policy.target, GetVaultObjectName(policy.source), status.desired);
      var st := status;
      if kind == Some(Rollout) {
        var patched := PatchWorkload(st, c);
        if !patched {
          return;
        }
        st := st.(conditions := Remove(st.conditions, RevisionPrepared));
        var _ := UpdateStatus(st, RolloutProgressing, True, c);
        return;
      }
      var canaryTemplate := BuildCanaryFromTemplate(BindingOf(policy), st.current, st.desired, secretName, template);
      if !c.createCanary {
        return;
      }
      if canary.None? {
        canary := Some(canaryTemplate);
      }
      if !c.createNetpol {
        return;
      }
      isolated := true;
      st := st.(conditions := Remove(st.conditions, RevisionPrepared));
      var _ := UpdateStatus(st, CanaryProvisioning, True, c);
    }

    method PollRollout(c: Answers)
      modifies this`status, this`secrets
      ensures Abs() == AwaitRollout(policy, old(Abs()), c)
    {
      if c.rollout.NotRead? {
        return;
      }
      if c.rollout.observed != Some(generation) {
        return;
      }
      var st := status;
      match c.rollout.phase {
        case Healthy =>
          st := st.(failures := 0);
          GcOldSecretRevisions(st, c);
          st := st.(current := st.desired);
          st := st.(desired := "");
          st := st.(conditions := Remove(st.conditions, RolloutProgressing));
          var _ := UpdateStatus(st, Promoting, True, c);
        case Degraded =>
          st := st.(failures := st.failures + 1);
          if st.failures >= Threshold(policy) {
            var _ := UpdateStatus(st, CircuitBreakerTripped, True, c);
            return;
          }
          var _ := UpdateStatus(st, RolloutProgressing, False, c);
        case Unsettled =>
      }
    }

    method ValidateCanary(c: Answers)
      modifies this
      ensures Abs() == Validate(policy, old(Abs()), c)
    {
      ghost var r := RunProbes(policy, Abs(), c);
      var outcome := ReconcileValidationProbes(c);
      ghost var probed := Abs();
      var st := status;
      match outcome {
        case Refused =>
          st := st.(failures := st.failures + 1);
          if st.failures >= Threshold(policy) {
            var _ := UpdateStatus(st, CircuitBreakerTripped, True, c);
            var _ := CleanupCanaryResources(c);
            return;
          }
          var _ := UpdateStatus(st, Validating, False, c);
        case Waiting =>
        case Passed =>
          st := st.(failures := 0);
          var promoted := PromoteTargetWorkload(st, c);
          if !promoted {
            return;
          }
          var _ := CleanupCanaryResources(c);
          st := st.(current := st.desired);
          st := st.(desired := "");
          st := st.(conditions := Remove(st.conditions, Validating));
          var _ := UpdateStatus(st, Promoting, True, c);
      }
    }

    /** With the breaker open: record it once, clean up once, and stop. */
    method HaltReconciliation(c: Answers)
      modifies this`status, this`canary, this`isolated, this`jobs
      ensures Abs() == Halt(policy, old(Abs()), c)
    {
      if !IsTrue(status.conditions, CircuitBreakerTripped) {
        var _ := UpdateStatus(status, CircuitBreakerTripped, True, c);
        var _ := CleanupCanaryResources(c);
      }
    }

    method ContinueRotation(currentState: Phase, c: Answers)
      requires currentState == DetermineState(status)
      modifies this
      ensures Abs() == Advance(policy, old(Abs()), c)
    {
      match currentState {
        case At(RevisionPrepared) =>
          ProvisionTarget(c);
        case At(CanaryProvisioning) =>
          var st := status.(conditions := Remove(status.conditions, CanaryProvisioning));
          var _ := UpdateStatus(st, Validating, True, c);
        case At(RolloutProgressing) =>
          PollRollout(c);
        case At(Validating) =>
          ValidateCanary(c);
        case At(RolledBack) =>
          var _ := CleanupCanaryResources(c);
        case _ =>
      }
    }

    /** One reconcile. */
    method Reconcile(c: Answers)
      modifies this
      ensures Abs() == Step(policy, old(Abs()), c)
    {
      hide Halt, BeginCycle, Advance, Materialized, Set, Remove, Threshold;
      if !c.getPolicy {
        return;
      }
      var threshold := Threshold(policy);
      var currentState := EvaluateState();
      var st := status;
      var revisionHash := "";
      if currentState == Idle || st.failures >= threshold || IsTrue(st.conditions, CircuitBreakerTripped) {
        var fetched := MaterializeSecretRevision(c);
        if fetched.None? {
          return;
        }
        revisionHash := fetched.value;
        if revisionHash != "" && st.current != revisionHash && st.desired != revisionHash {
          st := st.(failures := 0, desired := revisionHash);
          st := st.(conditions := Remove(st.conditions, CircuitBreakerTripped));
          currentState := Idle;
        }
      }
      if st.failures >= threshold || IsTrue(st.conditions, CircuitBreakerTripped) {
        HaltReconciliation(c);
        return;
      }
      if currentState == Idle {
        if st.current != "" && revisionHash == st.current {
          return;
        }
        RemoveTwice(status.conditions, CircuitBreakerTripped);
        StartCycle(st, revisionHash, c);
      } else {
        ContinueRotation(currentState, c);
      }
    }
  }

  lemma RemoveTwice(cs: seq<Condition>, t: ConditionType)
    ensures Remove(Remove(cs, t), t) == Remove(cs, t)
  {
    RemoveAbsent(Remove(cs, t), t);
  }

  lemma RemoveAbsent(cs: seq<Condition>, t: ConditionType)
    requires !Has(cs, t)
    ensures Remove(cs, t) == cs
  {
  }
}
