/**
  The ephemeral Job of a Job probe: how it is built from the user's template, and how its
  status is read.
 */
module ProbeJob {
  import opened Options
  import opened Naming
  import opened PodTemplate
  import opened TemplateLaws

  const ENV_REVISION_SECRET_NAME := "DSO_REVISION_SECRET_NAME"

  datatype JobTemplate = JobTemplate(template: Template, backoffLimit: Option<int>)

  /**
    `policy` is the label that ties the Job to its policy. `origin` is bookkeeping: the template the
    Job was built from, which nothing in the operator reads.
   */
  datatype Job = Job(name: string, policy: string, template: Template, backoffLimit: int, origin: JobTemplate)

  // ---------------------------------------------------------------- injecting the secret's name

  /** Gives the first entry of that name the value, or appends one. */
  function SetFirst(env: seq<EnvVar>, key: string, value: string): seq<EnvVar> {
    if |env| == 0 then [EnvVar(key, value, None)]
    else if env[0].name == key then [env[0].(value := value, from := None)] + env[1..]
    else [env[0]] + SetFirst(env[1..], key, value)
  }

  function InjectInto(cs: seq<Container>, key: string, value: string): seq<Container> {
    seq(|cs|, i requires 0 <= i < |cs| => cs[i].(env := SetFirst(cs[i].env, key, value)))
  }

  method SetOrAppendEnv(containers: array<Container>, key: string, value: string)
    modifies containers
    ensures containers[..] == InjectInto(old(containers[..]), key, value)
  {
    hide SetFirst;
    for i := 0 to containers.Length
      invariant forall k :: 0 <= k < i ==>
        containers[k] == old(containers[k]).(env := SetFirst(old(containers[k]).env, key, value))
      invariant forall k :: i <= k < containers.Length ==> containers[k] == old(containers[k])
    {
      var env := SetOrAppend(containers[i].env, key, value);
      containers[i] := containers[i].(env := env);
    }
  }

  /** The loop over one container's list. */
  method SetOrAppend(original: seq<EnvVar>, key: string, value: string) returns (env: seq<EnvVar>)
    ensures env == SetFirst(original, key, value)
  {
    hide SetFirst;
    env := original;
    var found := false;
    assert original[..0] + SetFirst(original[0..], key, value) == SetFirst(original, key, value) by {
      assert original[0..] == original && original[..0] == [];
    }
    for j := 0 to |original|
      invariant env == original && !found
      invariant SetFirst(original, key, value) == original[..j] + SetFirst(original[j..], key, value)
    {
      SetFirstFrom(original, key, value, j);
      if env[j].name == key {
        env := env[j := env[j].(value := value)];
        env := env[j := env[j].(from := None)];
        found := true;
        break;
      }
    }
    if !found {
      SetFirstAbsent(original, key, value);
      env := env + [EnvVar(key, value, None)];
    }
  }

  lemma SetFirstFrom(env: seq<EnvVar>, key: string, value: string, j: nat)
    requires j < |env|
    ensures env[..j] + SetFirst(env[j..], key, value) ==
      if env[j].name == key then env[j := env[j].(value := value, from := None)]
      else env[..j + 1] + SetFirst(env[j + 1..], key, value)
  {
    assert env[j..][0] == env[j] && env[j..][1..] == env[j + 1..];
    assert env[..j + 1] == env[..j] + [env[j]];
    assert env[..j] + ([env[j]] + SetFirst(env[j + 1..], key, value)) == env[..j] + [env[j]] + SetFirst(env[j + 1..], key, value);
  }

  lemma SetFirstAbsent(env: seq<EnvVar>, key: string, value: string)
    ensures env[..|env|] + SetFirst(env[|env|..], key, value) == env + [EnvVar(key, value, None)]
  {
  }

  /** No two entries share the name. */
  ghost predicate AtMostOnce(env: seq<EnvVar>, name: string) {
    forall i, j :: 0 <= i < j < |env| && env[i].name == name ==> env[j].name != name
  }

  lemma {:induction false} LastEnvCons(e: EnvVar, env: seq<EnvVar>, name: string)
    ensures LastEnv([e] + env, name) ==
      if LastEnv(env, name).Some? then LastEnv(env, name) else if e.name == name then Some(e) else None
    decreases |env|
  {
    var all := [e] + env;
    if |env| > 0 {
      assert all[..|env|] == [e] + env[..|env| - 1];
      LastEnvCons(e, env[..|env| - 1], name);
    } else {
      assert all[..0] == [];
    }
  }

  lemma LastEnvAbsent(env: seq<EnvVar>, name: string)
    ensures LastEnv(env, name).None? <==> forall i :: 0 <= i < |env| ==> env[i].name != name
  {
  }

  lemma AtMostOnceCons(env: seq<EnvVar>, name: string)
    requires |env| > 0
    ensures AtMostOnce(env, name) <==> if env[0].name == name then LastEnv(env[1..], name).None? else AtMostOnce(env[1..], name)
  {
    var rest := env[1..];
    LastEnvAbsent(rest, name);
    assert forall i :: 0 <= i < |rest| ==> rest[i] == env[i + 1];
    assert forall i :: 0 < i < |env| ==> env[i] == rest[i - 1];
  }

  lemma SetFirstCons(env: seq<EnvVar>, key: string, value: string)
    requires |env| > 0
    ensures SetFirst(env, key, value) ==
      if env[0].name == key then [env[0].(value := value, from := None)] + env[1..] else [env[0]] + SetFirst(env[1..], key, value)
    ensures env == [env[0]] + env[1..]
  {
  }

  lemma SetFirstOfNone(key: string, value: string, name: string)
    ensures SetFirst([], key, value) == [EnvVar(key, value, None)] + [] && LastEnv([], name).None? && AtMostOnce([], name)
  {
  }

  /**
    The injection reaches the container exactly when the user's list holds the reserved name at
    most once, or holds the injected entry last anyway; it never disturbs another variable.
   */
  lemma {:induction false} InjectionTakesEffect(env: seq<EnvVar>, key: string, value: string, name: string)
    ensures name != key ==> LastEnv(SetFirst(env, key, value), name) == LastEnv(env, name)
    ensures LastEnv(SetFirst(env, key, value), key) == Some(EnvVar(key, value, None))
       <==> AtMostOnce(env, key) || LastEnv(env, key) == Some(EnvVar(key, value, None))
  {
    hide SetFirst, LastEnv, AtMostOnce;
    if |env| == 0 {
      SetFirstOfNone(key, value, name);
      SetFirstOfNone(key, value, key);
      LastEnvCons(EnvVar(key, value, None), [], name);
      LastEnvCons(EnvVar(key, value, None), [], key);
    } else {
      var rest := env[1..];
      SetFirstCons(env, key, value);
      AtMostOnceCons(env, key);
      LastEnvCons(env[0], rest, name);
      LastEnvCons(env[0], rest, key);
      if env[0].name == key {
        var first := env[0].(value := value, from := None);
        LastEnvCons(first, rest, name);
        LastEnvCons(first, rest, key);
      } else {
        InjectionTakesEffect(rest, key, value, name);
        LastEnvCons(env[0], SetFirst(rest, key, value), name);
        LastEnvCons(env[0], SetFirst(rest, key, value), key);
      }
    }
  }

  // ---------------------------------------------------------------- building

  function Injected(t: Template, secretName: string): Template {
    t.(spec := t.spec.(containers := InjectInto(t.spec.containers, ENV_REVISION_SECRET_NAME, secretName),
                       initContainers := InjectInto(t.spec.initContainers, ENV_REVISION_SECRET_NAME, secretName)))
  }

  /** The Job for one revision; a probe's containers have names of their own, so none is singled out. */
  function BuiltJob(policyName: string, b: Binding, current: string, desired: string, spec: JobTemplate,
                    secretName: string): Job {
    Job(JobName(policyName, secretName), policyName,
        Injected(Promoted(b.(containerName := ""), current, desired, secretName, spec.template), secretName),
        if spec.backoffLimit.Some? then spec.backoffLimit.value else 0, spec)
  }

  method BuildProbeJob(policyName: string, b: Binding, current: string, desired: string, spec: JobTemplate,
                       revisionSecretName: string)
    returns (job: Job)
    ensures job == BuiltJob(policyName, b, current, desired, spec, revisionSecretName)
  {
    var tmpl := new PodTemplate(spec.template);
    tmpl.Mutate(b.(containerName := ""), current, desired, revisionSecretName);
    SetOrAppendEnv(tmpl.initContainers, ENV_REVISION_SECRET_NAME, revisionSecretName);
    SetOrAppendEnv(tmpl.containers, ENV_REVISION_SECRET_NAME, revisionSecretName);
    var jobName := DeriveProbeJobName(policyName, revisionSecretName);
    var backoffLimit := 0;
    if spec.backoffLimit.Some? {
      backoffLimit := spec.backoffLimit.value;
    }
    job := Job(jobName, policyName, tmpl.Value(), backoffLimit, spec);
  }

  // ---------------------------------------------------------------- reading the status

  datatype JobConditionKind = JobComplete | JobFailed | JobOther

  datatype JobCondition = JobCondition(kind: JobConditionKind, holds: bool)

  /** `expired` says that the Job has a creation time and its deadline has passed. */
  datatype JobStatus = JobStatus(conditions: seq<JobCondition>, expired: bool)

  datatype JobState = Running | Succeeded | Failed | TimedOut

  predicate Terminal(c: JobCondition) {
    c.holds && !c.kind.JobOther?
  }

  function Verdict(status: JobStatus): JobState
    decreases |status.conditions|
  {
    if |status.conditions| == 0 then if status.expired then TimedOut else Running
    else if Terminal(status.conditions[0]) then if status.conditions[0].kind.JobComplete? then Succeeded else Failed
    else Verdict(status.(conditions := status.conditions[1..]))
  }

  method EvaluateJobStatus(status: JobStatus) returns (state: JobState)
    ensures state == Verdict(status)
  {
    for i := 0 to |status.conditions|
      invariant Verdict(status) == Verdict(status.(conditions := status.conditions[i..]))
    {
      var cond := status.conditions[i];
      if cond.kind.JobComplete? && cond.holds {
        return Succeeded;
      }
      if cond.kind.JobFailed? && cond.holds {
        return Failed;
      }
      assert status.conditions[i..][1..] == status.conditions[i + 1..];
    }
    if status.expired {
      return TimedOut;
    }
    return Running;
  }

  /** The first terminal condition decides, and the deadline counts only when there is none. */
  lemma {:induction false} FirstTerminalDecides(status: JobStatus, i: nat)
    requires i <= |status.conditions| && forall k :: 0 <= k < i ==> !Terminal(status.conditions[k])
    ensures i == |status.conditions| ==> Verdict(status) == if status.expired then TimedOut else Running
    ensures i < |status.conditions| && Terminal(status.conditions[i]) ==>
      Verdict(status) == if status.conditions[i].kind.JobComplete? then Succeeded else Failed
    decreases i
  {
    if i > 0 {
      FirstTerminalDecides(status.(conditions := status.conditions[1..]), i - 1);
    }
  }
}
