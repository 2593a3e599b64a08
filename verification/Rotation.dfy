/**
  One reconcile of a policy, as a function of the stored state and of what every API call
  answers. A stored status changes only where the code writes it; whatever a call did to the
  cluster before a later call failed stays done.
 */
module Rotation {
  import opened Options
  import opened Naming
  import opened Policy
  import opened PodTemplate
  import opened ProbeJob
  import opened Conditions

  // ---------------------------------------------------------------- the policy

  /** A network probe's endpoint and credentials are abstracted into the answer it gets. */
  datatype Probe = NetworkProbe(kind: string) | JobProbe(spec: Option<JobTemplate>)

  datatype PolicySpec = PolicySpec(
    name: string, target: string, kind: string, source: SourceSpec, targetRef: Option<TargetRef>,
    probes: seq<Probe>, threshold: Option<int>)

  datatype Kind = Deployment | StatefulSet | DaemonSet | Rollout

  /** NewAdapter, which refuses any other kind. */
  function ResolveKind(kind: string): Option<Kind> {
    if kind == "Deployment" || kind == "" then Some(Deployment)
    else if kind == "StatefulSet" then Some(StatefulSet)
    else if kind == "DaemonSet" then Some(DaemonSet)
    else if kind == "Rollout" then Some(Rollout)
    else None
  }

  predicate IsRollout(p: PolicySpec) {
    ResolveKind(p.kind) == Some(Rollout)
  }

  function Threshold(p: PolicySpec): (t: int)
    ensures t > 0
  {
    if p.threshold.Some? && p.threshold.value > 0 then p.threshold.value else 3
  }

  function Managed(p: PolicySpec): string {
    GetVaultObjectName(p.source)
  }

  /** The rewriting takes the object's name from the deprecated reference. */
  function BindingOf(p: PolicySpec): Binding {
    var ref := if p.targetRef.Some? then p.targetRef.value else TargetRef("", "", "");
    Binding(p.target, p.source.vaultRef.objectName, ref.volumeName, ref.envName, ref.containerName)
  }

  lemma BindingTarget(p: PolicySpec)
    ensures BindingOf(p).target == p.target
  {
  }

  /** What bears on the rewriting; probes, threshold and the kind of workload may differ. */
  predicate SameConfiguration(p: PolicySpec, q: PolicySpec) {
    q.target == p.target && q.source == p.source && q.targetRef == p.targetRef
  }

  /** The secrets the operator makes take it from the resolved source. */
  function SecretOf(p: PolicySpec, revision: string): string {
    SecretName(p.target, Managed(p), revision)
  }

  // ---------------------------------------------------------------- the state

  datatype Status = Status(current: string, desired: string, failures: int, conditions: seq<Condition>)

  /** The labels that garbage collection selects by; an absent label is empty. */
  datatype Labels = Labels(policy: string, target: string, revision: string)

  /**
    What happened: the revisions a whole probe pass accepted, the revisions the production
    template was patched to, whether it was patched since DesiredRevision was last set, and the
    Jobs that were seen to succeed.
   */
  datatype History = History(passed: set<string>, patches: seq<string>, cyclePatched: bool, jobWins: set<Job>)

  datatype State = State(
    status: Status, secrets: map<string, Labels>, template: Template, generation: nat,
    canary: Option<Template>, isolated: bool, jobs: map<string, Job>, history: History)

  // ---------------------------------------------------------------- the answers

  datatype NetworkAnswer = EndpointError | AwaitingCanary | Rejected | Accepted

  datatype ProbeAnswer = ProbeAnswer(
    jobGet: bool, jobCreate: bool, jobStatus: JobStatus, jobDelete: bool, network: NetworkAnswer)

  datatype RolloutPhase = Healthy | Degraded | Unsettled

  datatype RolloutAnswer = NotRead | Read(observed: Option<nat>, phase: RolloutPhase)

  /**
    What each call of one reconcile answers, in the order of the code. A false flag is an error
    other than the one the code tolerates there; `upstream` is the revision of the fetched
    payload, and None an error in fetching it.
   */
  datatype Answers = Answers(
    getPolicy: bool, upstream: Option<Revision>, createSecret: bool, writeStatus: bool,
    fetchTarget: bool, createCanary: bool, createNetpol: bool, patch: bool,
    listSecrets: bool, undeletable: set<string>,
    getSecret: bool, probes: seq<ProbeAnswer>,
    deleteCanary: bool, deleteNetpol: bool, listJobs: bool, undeletableJobs: set<string>,
    rollout: RolloutAnswer)

  /** Every call succeeds and the upstream revision is h; no probe answers, and no Rollout is read. */
  function Smooth(h: Revision): Answers {
    Answers(true, Some(h), true, true, true, true, true, true, true, {}, true, [], true, true, true, {}, NotRead)
  }

  const SILENT := ProbeAnswer(false, false, JobStatus([], false), false, EndpointError)

  function AnswerOf(c: Answers, i: nat): ProbeAnswer {
    if i < |c.probes| then c.probes[i] else SILENT
  }

  // ---------------------------------------------------------------- the state machine's reading of a status

  datatype Phase = Idle | At(kind: ConditionType)

  function DetermineState(st: Status): Phase {
    if st.desired == "" then Idle
    else if IsTrue(st.conditions, RolledBack) then At(RolledBack)
    else if Has(st.conditions, Validating) then At(Validating)
    else if Has(st.conditions, RolloutProgressing) then At(RolloutProgressing)
    else if Has(st.conditions, CanaryProvisioning) then At(CanaryProvisioning)
    else if Has(st.conditions, RevisionPrepared) then At(RevisionPrepared)
    else
      match FirstTrue(st.conditions)
      case Some(t) => At(t)
      case None => At(RevisionPrepared)
  }

  predicate Halted(p: PolicySpec, st: Status) {
    st.failures >= Threshold(p) || IsTrue(st.conditions, CircuitBreakerTripped)
  }

  /** The payload is fetched only when no rotation is running or the breaker is open. */
  predicate Consults(p: PolicySpec, st: Status) {
    DetermineState(st) == Idle || Halted(p, st)
  }

  predicate Fresh(st: Status, h: string) {
    h != "" && st.current != h && st.desired != h
  }

  // ---------------------------------------------------------------- parts of a step

  function Persist(s: State, st: Status, c: Answers): State {
    if c.writeStatus then s.(status := st) else s
  }

  function With(st: Status, t: ConditionType, truth: Truth): Status {
    st.(conditions := Set(st.conditions, t, truth))
  }

  function Without(st: Status, t: ConditionType): Status {
    st.(conditions := Remove(st.conditions, t))
  }

  /** The secrets after materializing a revision; an existing secret of that name is taken as it is. */
  function Materialized(p: PolicySpec, secrets: map<string, Labels>, h: string): map<string, Labels> {
    var name := SecretOf(p, h);
    if name in secrets then secrets else secrets[name := Labels(p.name, p.target, h)]
  }

  /** A new cycle clears five conditions; RolloutProgressing is not among them. */
  function CycleStatus(st: Status, h: string): Status {
    var cleared := Without(
      Without(Without(Without(Without(st, CircuitBreakerTripped), RolledBack), Promoting), Validating),
      CanaryProvisioning);
    With(cleared.(failures := 0, desired := h), RevisionPrepared, True)
  }

  function BeginCycle(s: State, h: string, c: Answers): State {
    if c.writeStatus then s.(status := CycleStatus(s.status, h), history := s.history.(cyclePatched := false)) else s
  }

  function CleanedUp(p: PolicySpec, s: State, c: Answers): State {
    if !c.deleteCanary then s
    else if !c.deleteNetpol then s.(canary := None)
    else
      var jobs := if c.listJobs
        then map n | n in s.jobs && (s.jobs[n].policy != p.name || n in c.undeletableJobs) :: s.jobs[n]
        else s.jobs;
      s.(canary := None, isolated := false, jobs := jobs)
  }

  function Halt(p: PolicySpec, s: State, c: Answers): State {
    if IsTrue(s.status.conditions, CircuitBreakerTripped) then s
    else CleanedUp(p, Persist(s, With(s.status, CircuitBreakerTripped, True), c), c)
  }

  predicate Collectable(p: PolicySpec, st: Status, l: Labels) {
    l.policy == p.name && l.target == p.target && l.revision != st.desired && l.revision != st.current
  }

  function Collected(p: PolicySpec, st: Status, secrets: map<string, Labels>, c: Answers): map<string, Labels> {
    if c.listSecrets
    then map n | n in secrets && !(Collectable(p, st, secrets[n]) && n !in c.undeletable) :: secrets[n]
    else secrets
  }

  /** The production workload patched to the desired revision. */
  function Patched(p: PolicySpec, s: State): State {
    var t := Promoted(BindingOf(p), s.status.current, s.status.desired, SecretOf(p, s.status.desired), s.template);
    s.(template := t,
       generation := if t == s.template then s.generation else s.generation + 1,
       history := s.history.(patches := s.history.patches + [s.status.desired], cyclePatched := true))
  }

  function ProvisionRollout(p: PolicySpec, s: State, c: Answers): State {
    if !c.fetchTarget || !c.patch then s
    else Persist(Patched(p, s), With(Without(s.status, RevisionPrepared), RolloutProgressing, True), c)
  }

  function ProvisionCanary(p: PolicySpec, s: State, c: Answers): State {
    if !c.fetchTarget || !c.createCanary then s
    else
      var canary := CanaryOf(BindingOf(p), s.status.current, s.status.desired, SecretOf(p, s.status.desired), s.template);
      var s1 := if s.canary.None? then s.(canary := Some(canary)) else s;
      if !c.createNetpol then s1
      else Persist(s1.(isolated := true), With(Without(s.status, RevisionPrepared), CanaryProvisioning, True), c)
  }

  function Provision(p: PolicySpec, s: State, c: Answers): State {
    match ResolveKind(p.kind)
    case None => s
    case Some(Rollout) => ProvisionRollout(p, s, c)
    case Some(_) => ProvisionCanary(p, s, c)
  }

  function AwaitRollout(p: PolicySpec, s: State, c: Answers): State {
    if c.rollout.NotRead? || c.rollout.observed != Some(s.generation) then s
    else
      match c.rollout.phase
      case Healthy =>
        var st := s.status.(failures := 0, current := s.status.desired, desired := "");
        Persist(s.(secrets := Collected(p, s.status, s.secrets, c)), With(Without(st, RolloutProgressing), Promoting, True), c)
      case Degraded =>
        var st := s.status.(failures := s.status.failures + 1);
        if st.failures >= Threshold(p) then Persist(s, With(st, CircuitBreakerTripped, True), c)
        else Persist(s, With(st, RolloutProgressing, False), c)
      case Unsettled => s
  }

  // ---------------------------------------------------------------- probes

  datatype ProbeOutcome = Passed | Waiting | Refused

  datatype ProbeResult = ProbeResult(outcome: ProbeOutcome, jobs: map<string, Job>, wins: set<Job>)

  function JobFor(p: PolicySpec, st: Status, spec: JobTemplate): Job {
    BuiltJob(p.name, BindingOf(p), st.current, st.desired, spec, SecretOf(p, st.desired))
  }

  /** The probes from the i-th on, with the Jobs in the cluster and those seen to succeed so far. */
  function ProbesFrom(p: PolicySpec, st: Status, jobs: map<string, Job>, wins: set<Job>, c: Answers,
                      i: nat): ProbeResult
    requires i <= |p.probes|
    decreases |p.probes| - i
  {
    if i == |p.probes| then ProbeResult(Passed, jobs, wins)
    else
      var a := AnswerOf(c, i);
      match p.probes[i]
      case NetworkProbe(_) =>
        (match a.network
         case EndpointError => ProbeResult(Refused, jobs, wins)
         case AwaitingCanary => ProbeResult(Waiting, jobs, wins)
         case Rejected => ProbeResult(Refused, jobs, wins)
         case Accepted => ProbesFrom(p, st, jobs, wins, c, i + 1))
      case JobProbe(None) => ProbeResult(Refused, jobs, wins)
      case JobProbe(Some(spec)) =>
        var name := JobName(p.name, SecretOf(p, st.desired));
        if !a.jobGet then ProbeResult(Refused, jobs, wins)
        else if name !in jobs then
          if a.jobCreate then ProbeResult(Waiting, jobs[name := JobFor(p, st, spec)], wins)
          else ProbeResult(Refused, jobs, wins)
        else
          var rest := if a.jobDelete then jobs - {name} else jobs;
          match Verdict(a.jobStatus)
          case Running => ProbeResult(Waiting, jobs, wins)
          case Succeeded => ProbesFrom(p, st, rest, wins + {jobs[name]}, c, i + 1)
          case Failed => ProbeResult(Refused, rest, wins)
          case TimedOut => ProbeResult(Refused, rest, wins)
  }

  function RunProbes(p: PolicySpec, s: State, c: Answers): ProbeResult {
    if |p.probes| == 0 then ProbeResult(Passed, s.jobs, s.history.jobWins)
    else if !c.getSecret || SecretOf(p, s.status.desired) !in s.secrets then ProbeResult(Refused, s.jobs, s.history.jobWins)
    else ProbesFrom(p, s.status, s.jobs, s.history.jobWins, c, 0)
  }

  /** The state after the probes, before their outcome is acted on. */
  function Probed(s: State, r: ProbeResult): State {
    var passed := if r.outcome.Passed? then s.history.passed + {s.status.desired} else s.history.passed;
    s.(jobs := r.jobs, history := s.history.(jobWins := r.wins, passed := passed))
  }

  function ValidationFailed(p: PolicySpec, s: State, c: Answers): State {
    var st := s.status.(failures := s.status.failures + 1);
    if st.failures >= Threshold(p) then CleanedUp(p, Persist(s, With(st, CircuitBreakerTripped, True), c), c)
    else Persist(s, With(st, Validating, False), c)
  }

  /** Patch, collect, clean up, record: the order in which a passed validation takes effect. */
  function Promote(p: PolicySpec, s: State, c: Answers): State {
    if ResolveKind(p.kind).None? || !c.fetchTarget || !c.patch then s
    else
      var s1 := Patched(p, s);
      var s2 := CleanedUp(p, s1.(secrets := Collected(p, s1.status, s1.secrets, c)), c);
      var st := s.status.(failures := 0, current := s.status.desired, desired := "");
      Persist(s2, With(Without(st, Validating), Promoting, True), c)
  }

  function Validate(p: PolicySpec, s: State, c: Answers): State {
    var r := RunProbes(p, s, c);
    match r.outcome
    case Refused => ValidationFailed(p, Probed(s, r), c)
    case Waiting => Probed(s, r)
    case Passed => Promote(p, Probed(s, r), c)
  }

  // ---------------------------------------------------------------- the step

  function Advance(p: PolicySpec, s: State, c: Answers): State {
    match DetermineState(s.status)
    case At(RevisionPrepared) => Provision(p, s, c)
    case At(CanaryProvisioning) => Persist(s, With(Without(s.status, CanaryProvisioning), Validating, True), c)
    case At(RolloutProgressing) => AwaitRollout(p, s, c)
    case At(Validating) => Validate(p, s, c)
    case At(RolledBack) => CleanedUp(p, s, c)
    case _ => s
  }

  function Consult(p: PolicySpec, s: State, c: Answers): State {
    if c.upstream.None? || !c.createSecret then s
    else
      var h := c.upstream.value;
      var s1 := s.(secrets := Materialized(p, s.secrets, h));
      if Fresh(s.status, h) then BeginCycle(s1, h, c)
      else if Halted(p, s.status) then Halt(p, s1, c)
      else s1
  }

  function Step(p: PolicySpec, s: State, c: Answers): State {
    if !c.getPolicy then s
    else if Consults(p, s.status) then Consult(p, s, c)
    else Advance(p, s, c)
  }

  /** A run: one reconcile after another. */
  function Run(p: PolicySpec, s: State, cs: seq<Answers>): State
    decreases |cs|
  {
    if |cs| == 0 then s else Run(p, Step(p, s, cs[0]), cs[1..])
  }

  lemma RunConcat(p: PolicySpec, s: State, cs: seq<Answers>, ds: seq<Answers>)
    ensures Run(p, s, cs + ds) == Run(p, Run(p, s, cs), ds)
    decreases |cs|
  {
    if |cs| == 0 {
      assert cs + ds == ds;
    } else {
      assert (cs + ds)[1..] == cs[1..] + ds;
      RunConcat(p, Step(p, s, cs[0]), cs[1..], ds);
    }
  }

  lemma RunSnoc(p: PolicySpec, s: State, cs: seq<Answers>, c: Answers)
    ensures Run(p, s, cs + [c]) == Step(p, Run(p, s, cs), c)
  {
    RunConcat(p, s, cs, [c]);
    assert [c][1..] == [];
  }
}
