/**
  What every run of a policy for a Deployment, StatefulSet or DaemonSet keeps, whatever the
  upstream secret does and whichever calls fail.
 */
module Safety {
  import opened Options
  import opened Naming
  import opened PodTemplate
  import opened TemplateLaws
  import opened ProbeJob
  import opened Conditions
  import opened Rotation

  // ---------------------------------------------------------------- how one step moves the state

  /** The step is a validation whose probe pass is taken to its outcome. */
  predicate Validates(p: PolicySpec, s: State, c: Answers) {
    c.getPolicy && !Consults(p, s.status) && DetermineState(s.status) == At(Validating)
  }

  predicate Fails(p: PolicySpec, s: State, c: Answers) {
    Validates(p, s, c) && RunProbes(p, s, c).outcome.Refused?
  }

  predicate Passes(p: PolicySpec, s: State, c: Answers) {
    Validates(p, s, c) && RunProbes(p, s, c).outcome.Passed?
  }

  /** The step patches the production workload after a passed validation. */
  predicate Promotes(p: PolicySpec, s: State, c: Answers) {
    Passes(p, s, c) && ResolveKind(p.kind).Some? && c.fetchTarget && c.patch
  }

  /** The step finds an upstream revision that is neither current nor desired. */
  predicate FindsFresh(p: PolicySpec, s: State, c: Answers) {
    && c.getPolicy && Consults(p, s.status) && c.upstream.Some? && c.createSecret
    && Fresh(s.status, c.upstream.value)
  }

  function FailedStatus(p: PolicySpec, st: Status): Status {
    var counted := st.(failures := st.failures + 1);
    if counted.failures >= Threshold(p) then With(counted, CircuitBreakerTripped, True) else With(counted, Validating, False)
  }

  function PromotedStatus(st: Status): Status {
    With(Without(st.(failures := 0, current := st.desired, desired := ""), Validating), Promoting, True)
  }

  lemma ConsultStatusMoves(p: PolicySpec, s: State, c: Answers)
    ensures var st, s' := s.status, Consult(p, s, c);
      && s'.history.passed == s.history.passed
      && (|| s'.status == st
          || (c.upstream.Some? && c.createSecret && Fresh(st, c.upstream.value) && c.writeStatus
              && s'.status == CycleStatus(st, c.upstream.value))
          || (Halted(p, st) && !IsTrue(st.conditions, CircuitBreakerTripped)
              && s'.status == With(st, CircuitBreakerTripped, True)))
      && (c.upstream.Some? && c.createSecret && Fresh(st, c.upstream.value) && c.writeStatus ==>
          s'.status == CycleStatus(st, c.upstream.value))
  {
    hide With, CycleStatus, Materialized;
  }

  lemma ProvisionStatusMoves(p: PolicySpec, s: State, c: Answers)
    requires !IsRollout(p)
    ensures var st, s' := s.status, Provision(p, s, c);
      && s'.history.passed == s.history.passed
      && (s'.status == st || s'.status == With(Without(st, RevisionPrepared), CanaryProvisioning, True))
  {
    hide With, Without, CanaryOf, BindingOf, SecretOf;
  }

  lemma ValidateStatusMoves(p: PolicySpec, s: State, c: Answers)
    ensures var st, s', outcome := s.status, Validate(p, s, c), RunProbes(p, s, c).outcome;
      && s'.history.passed == (if outcome.Passed? then s.history.passed + {st.desired} else s.history.passed)
      && (if c.writeStatus && outcome.Refused? then s'.status == FailedStatus(p, st)
          else if c.writeStatus && outcome.Passed? && ResolveKind(p.kind).Some? && c.fetchTarget && c.patch
          then s'.status == PromotedStatus(st)
          else s'.status == st)
  {
    hide With, Without, RunProbes, Promoted, BindingOf, SecretOf, Collected, ResolveKind, Threshold;
  }

  /** Every way a reconcile can change the stored status of a policy that does not target a Rollout. */
  lemma StatusMoves(p: PolicySpec, s: State, c: Answers)
    requires !IsRollout(p) && DetermineState(s.status) != At(RolloutProgressing)
    ensures var st, st' := s.status, Step(p, s, c).status;
      || st' == st
      || (c.writeStatus && FindsFresh(p, s, c) && st' == CycleStatus(st, c.upstream.value))
      || (Halted(p, st) && !IsTrue(st.conditions, CircuitBreakerTripped) && st' == With(st, CircuitBreakerTripped, True))
      || (!Halted(p, st) && DetermineState(st) == At(RevisionPrepared)
          && st' == With(Without(st, RevisionPrepared), CanaryProvisioning, True))
      || (!Halted(p, st) && DetermineState(st) == At(CanaryProvisioning)
          && st' == With(Without(st, CanaryProvisioning), Validating, True))
      || (c.writeStatus && Fails(p, s, c) && st' == FailedStatus(p, st))
      || (c.writeStatus && Promotes(p, s, c) && st' == PromotedStatus(st))
  {
    hide Consult, Provision, Validate, AwaitRollout, CleanedUp, With, Without, CycleStatus, FailedStatus,
        PromotedStatus, RunProbes, ResolveKind;
    ConsultStatusMoves(p, s, c);
    ProvisionStatusMoves(p, s, c);
    ValidateStatusMoves(p, s, c);
    CleanupKeepsStatus(p, s, c);
  }

  lemma CleanupKeepsStatus(p: PolicySpec, s: State, c: Answers)
    ensures var s' := CleanedUp(p, s, c); s' == s.(canary := s'.canary, isolated := s'.isolated, jobs := s'.jobs)
  {
  }

  /** With every status write accepted, failures and promotions are always recorded. */
  lemma WrittenMoves(p: PolicySpec, s: State, c: Answers)
    requires c.writeStatus
    ensures FindsFresh(p, s, c) ==> Step(p, s, c).status == CycleStatus(s.status, c.upstream.value)
    ensures Fails(p, s, c) ==> Step(p, s, c).status == FailedStatus(p, s.status)
    ensures Promotes(p, s, c) ==> Step(p, s, c).status == PromotedStatus(s.status)
    ensures Validates(p, s, c) && !Fails(p, s, c) && !Promotes(p, s, c) ==> Step(p, s, c).status == s.status
  {
    hide Consult, Provision, Validate, AwaitRollout, CleanedUp, With, Without, CycleStatus, FailedStatus,
        PromotedStatus, RunProbes, ResolveKind;
    ConsultStatusMoves(p, s, c);
    ValidateStatusMoves(p, s, c);
  }

  predicate SameProduction(s: State, s': State) {
    s'.template == s.template && s'.history.patches == s.history.patches
  }

  lemma ProvisionCanaryMoves(p: PolicySpec, s: State, c: Answers)
    ensures var s' := ProvisionCanary(p, s, c); SameProduction(s, s') && s'.secrets == s.secrets
  {
  }

  lemma ValidateMoves(p: PolicySpec, s: State, c: Answers)
    ensures var s' := Validate(p, s, c);
      if RunProbes(p, s, c).outcome.Passed? && ResolveKind(p.kind).Some? && c.fetchTarget && c.patch then
        && s'.template == Promoted(BindingOf(p), s.status.current, s.status.desired, SecretOf(p, s.status.desired), s.template)
        && s'.secrets == Collected(p, s.status, s.secrets, c)
        && s'.history.patches == s.history.patches + [s.status.desired]
      else SameProduction(s, s') && s'.secrets == s.secrets
  {
    hide With, Without, RunProbes, Promoted, BindingOf, SecretOf, Collected, ResolveKind, Threshold;
  }

  lemma ConsultMoves(p: PolicySpec, s: State, c: Answers)
    ensures var s' := Consult(p, s, c);
      && SameProduction(s, s')
      && (s'.secrets == s.secrets || (c.upstream.Some? && s'.secrets == Materialized(p, s.secrets, c.upstream.value)))
      && (c.upstream.Some? && c.createSecret ==> s'.secrets == Materialized(p, s.secrets, c.upstream.value))
  {
    hide With, CycleStatus, Materialized, Halted, Fresh;
  }

  /**
    Only a promoting step touches the production template or removes a secret; every other
    step adds at most the secret of the upstream revision.
   */
  lemma ClusterMoves(p: PolicySpec, s: State, c: Answers)
    requires !IsRollout(p) && DetermineState(s.status) != At(RolloutProgressing)
    ensures var s' := Step(p, s, c);
      if Promotes(p, s, c) then
        && s'.template == Promoted(BindingOf(p), s.status.current, s.status.desired, SecretOf(p, s.status.desired), s.template)
        && s'.secrets == Collected(p, s.status, s.secrets, c)
        && s'.history.patches == s.history.patches + [s.status.desired]
      else
        && SameProduction(s, s')
        && (s'.secrets == s.secrets || (c.upstream.Some? && s'.secrets == Materialized(p, s.secrets, c.upstream.value)))
        && (FindsFresh(p, s, c) ==> s'.secrets == Materialized(p, s.secrets, c.upstream.value))
  {
    hide Consult, ProvisionCanary, Validate, AwaitRollout, CleanedUp, With, Without, Promoted, BindingOf, SecretOf,
        Collected, RunProbes, ResolveKind;
    ProvisionCanaryMoves(p, s, c);
    ValidateMoves(p, s, c);
    ConsultMoves(p, s, c);
    CleanupKeepsStatus(p, s, c);
  }

  lemma HistoryMoves(p: PolicySpec, s: State, c: Answers)
    ensures Step(p, s, c).history.passed ==
      if Passes(p, s, c) then s.history.passed + {s.status.desired} else s.history.passed
  {
    hide Consult, Provision, Validate, AwaitRollout, CleanedUp, With, Without, RunProbes;
    ConsultStatusMoves(p, s, c);
    ProvisionKeepsPassed(p, s, c);
    AwaitKeepsPassed(p, s, c);
    ValidateStatusMoves(p, s, c);
    CleanupKeepsStatus(p, s, c);
  }

  lemma ProvisionKeepsPassed(p: PolicySpec, s: State, c: Answers)
    ensures Provision(p, s, c).history.passed == s.history.passed
  {
    hide With, Without, CanaryOf, Promoted, BindingOf, SecretOf, ResolveKind;
  }

  lemma AwaitKeepsPassed(p: PolicySpec, s: State, c: Answers)
    ensures AwaitRollout(p, s, c).history == s.history
  {
    hide With, Without, Collected, Threshold;
  }

  // ---------------------------------------------------------------- phases and the breaker

  predicate HasNone(cs: seq<Condition>) {
    !Has(cs, RevisionPrepared) && !Has(cs, CanaryProvisioning) && !Has(cs, Validating)
  }

  predicate HasExactlyOne(cs: seq<Condition>) {
    || (Has(cs, RevisionPrepared) && !Has(cs, CanaryProvisioning) && !Has(cs, Validating))
    || (!Has(cs, RevisionPrepared) && Has(cs, CanaryProvisioning) && !Has(cs, Validating))
    || (!Has(cs, RevisionPrepared) && !Has(cs, CanaryProvisioning) && Has(cs, Validating))
  }

  predicate PhaseOk(st: Status) {
    && !Has(st.conditions, RolledBack) && !Has(st.conditions, RolloutProgressing)
    && (if st.desired == "" then HasNone(st.conditions) else HasExactlyOne(st.conditions))
  }

  predicate BreakerOk(p: PolicySpec, st: Status) {
    && 0 <= st.failures <= Threshold(p)
    && (Has(st.conditions, CircuitBreakerTripped) <==> IsTrue(st.conditions, CircuitBreakerTripped))
    && (IsTrue(st.conditions, CircuitBreakerTripped) <==> st.failures == Threshold(p))
    && (st.failures > 0 ==> Has(st.conditions, Validating))
  }

  predicate StatusOk(p: PolicySpec, st: Status) {
    PhaseOk(st) && BreakerOk(p, st)
  }

  /** Under the invariant the phase is the one condition present; no other outcome is possible. */
  lemma PhaseIsTheCondition(st: Status)
    requires PhaseOk(st)
    ensures DetermineState(st) == Idle <==> st.desired == ""
    ensures st.desired != "" ==> DetermineState(st) in {At(RevisionPrepared), At(CanaryProvisioning), At(Validating)}
    ensures forall t :: st.desired != "" && t in {RevisionPrepared, CanaryProvisioning, Validating} ==>
      (DetermineState(st) == At(t) <==> Has(st.conditions, t))
  {
  }

  lemma StepKeepsStatus(p: PolicySpec, s: State, c: Answers)
    requires !IsRollout(p) && StatusOk(p, s.status)
    ensures StatusOk(p, Step(p, s, c).status)
  {
    hide Step, RunProbes, ResolveKind, Threshold;
    StatusMoves(p, s, c);
  }

  /** The desired revision changes only by a promotion, which makes it current, or by a fresh upstream revision. */
  lemma DesiredIsConstant(p: PolicySpec, s: State, c: Answers)
    requires !IsRollout(p) && StatusOk(p, s.status)
    ensures var st, st' := s.status, Step(p, s, c).status;
      st'.desired != st.desired ==>
        || (Promotes(p, s, c) && st'.desired == "" && st'.current == st.desired)
        || (FindsFresh(p, s, c) && (st.desired == "" || IsTrue(st.conditions, CircuitBreakerTripped))
            && st'.desired == c.upstream.value && st'.current == st.current && st'.failures == 0)
    ensures var st, st' := s.status, Step(p, s, c).status;
      st'.current != st.current ==> Promotes(p, s, c) && st'.current == st.desired
  {
    StatusMoves(p, s, c);
  }

  // ---------------------------------------------------------------- what a passed validation says

  /** The answers and the stored Jobs under which one probe passes. */
  predicate ProbeAccepted(probe: Probe, a: ProbeAnswer) {
    match probe
    case NetworkProbe(_) => a.network.Accepted?
    case JobProbe(spec) => spec.Some? && a.jobGet && Verdict(a.jobStatus).Succeeded?
  }

  /** A probe pass succeeds only if every probe of the list, from the first to the last, was accepted. */
  lemma {:induction false} PassAcceptsEveryProbe(p: PolicySpec, st: Status, jobs: map<string, Job>, wins: set<Job>,
                                                 c: Answers, i: nat, k: nat)
    requires i <= k < |p.probes|
    requires ProbesFrom(p, st, jobs, wins, c, i).outcome.Passed?
    ensures ProbeAccepted(p.probes[k], AnswerOf(c, k))
    decreases |p.probes| - i
  {
    hide JobName, SecretOf, JobFor, Verdict;
    if i < k {
      var name := JobName(p.name, SecretOf(p, st.desired));
      if p.probes[i].NetworkProbe? {
        PassAcceptsEveryProbe(p, st, jobs, wins, c, i + 1, k);
      } else {
        var rest := if AnswerOf(c, i).jobDelete then jobs - {name} else jobs;
        PassAcceptsEveryProbe(p, st, rest, wins + {jobs[name]}, c, i + 1, k);
      }
    }
  }

  // ---------------------------------------------------------------- runs

  /** Secrets that carry this policy's labels are named after their revision label. */
  predicate LabelsOk(p: PolicySpec, secrets: map<string, Labels>) {
    forall n :: n in secrets && secrets[n].policy == p.name && secrets[n].target == p.target ==>
      n == SecretOf(p, secrets[n].revision)
  }

  function OwnRevisions(p: PolicySpec, t: Template): set<string> {
    OwnRefs(BindingOf(p), Managed(p), t)
  }

  /** A new policy: an empty status, and a production template that names none of its revisions. */
  predicate Initial(p: PolicySpec, s: State) {
    && s.status == Status("", "", 0, [])
    && LabelsOk(p, s.secrets)
    && OwnRevisions(p, s.template) == {}
    && s.canary.None? && s.jobs == map[]
    && s.history == History({}, [], false, {})
  }

  /** A new policy over the given production template, in an empty namespace. */
  function StartWith(t: Template): State {
    State(Status("", "", 0, []), map[], t, 0, None, false, map[], History({}, [], false, {}))
  }

  lemma StartIsInitial(p: PolicySpec, t: Template)
    requires OwnRevisions(p, t) == {}
    ensures Initial(p, StartWith(t))
  {
  }

  const BARE := Template(map[], map[], PodSpec([], [], [], ""))

  lemma BareIsInitial(p: PolicySpec)
    ensures Initial(p, StartWith(BARE))
  {
    assert VolumeRefs([]) == {} && ContainerRefs([]) == {};
    StartIsInitial(p, BARE);
  }

  predicate Named(p: PolicySpec, secrets: map<string, Labels>, revision: string) {
    revision != "" ==> SecretOf(p, revision) in secrets
  }

  /** No dangling reference: the secrets of both revisions and of every own reference exist. */
  predicate NoDangling(p: PolicySpec, s: State) {
    && Named(p, s.secrets, s.status.current)
    && Named(p, s.secrets, s.status.desired)
    && OwnRevisions(p, s.template) <= s.secrets.Keys
  }

  ghost predicate ExistenceOk(p: PolicySpec, s: State) {
    && LabelsOk(p, s.secrets)
    && Covered(BindingOf(p), Managed(p), s.template)
    && NoDangling(p, s)
  }

  lemma SecretOfInjective(p: PolicySpec, r1: string, r2: string)
    ensures SecretOf(p, r1) == SecretOf(p, r2) <==> r1 == r2
  {
    var prefix := RevisionPrefix(p.target, Managed(p));
    assert SecretOf(p, r1)[|prefix|..] == r1 && SecretOf(p, r2)[|prefix|..] == r2;
  }

  lemma CollectionSpares(p: PolicySpec, st: Status, secrets: map<string, Labels>, c: Answers, r: string)
    requires LabelsOk(p, secrets) && (r == st.desired || r == st.current) && SecretOf(p, r) in secrets
    ensures SecretOf(p, r) in Collected(p, st, secrets, c)
  {
    SecretOfInjective(p, secrets[SecretOf(p, r)].revision, r);
  }

  /** Of whatever kind the workload is, the secrets of both revisions stay. */
  predicate NamesOk(p: PolicySpec, s: State) {
    LabelsOk(p, s.secrets) && Named(p, s.secrets, s.status.current) && Named(p, s.secrets, s.status.desired)
  }

  lemma CollectionKeepsNames(p: PolicySpec, st: Status, secrets: map<string, Labels>, c: Answers)
    requires LabelsOk(p, secrets) && Named(p, secrets, st.current) && Named(p, secrets, st.desired)
    ensures var left := Collected(p, st, secrets, c);
      LabelsOk(p, left) && Named(p, left, st.current) && Named(p, left, st.desired)
  {
    if st.current != "" {
      CollectionSpares(p, st, secrets, c, st.current);
    }
    if st.desired != "" {
      CollectionSpares(p, st, secrets, c, st.desired);
    }
  }

  lemma ProvisionKeepsNames(p: PolicySpec, s: State, c: Answers)
    requires NamesOk(p, s)
    ensures NamesOk(p, Provision(p, s, c))
  {
  }

  lemma AwaitKeepsNames(p: PolicySpec, s: State, c: Answers)
    requires NamesOk(p, s)
    ensures NamesOk(p, AwaitRollout(p, s, c))
  {
    hide Collected, SecretOf, Threshold, Set, Remove, LabelsOk;
    CollectionKeepsNames(p, s.status, s.secrets, c);
  }

  lemma ValidateKeepsNames(p: PolicySpec, s: State, c: Answers)
    requires NamesOk(p, s)
    ensures NamesOk(p, Validate(p, s, c))
  {
    hide Validate, Collected, RunProbes, Promoted, BindingOf, SecretOf, ResolveKind, Threshold, Set, Remove, LabelsOk;
    CollectionKeepsNames(p, s.status, s.secrets, c);
    ValidateMoves(p, s, c);
    ValidateStatusMoves(p, s, c);
  }

  lemma MaterializingKeepsNames(p: PolicySpec, secrets: map<string, Labels>, h: Revision)
    requires LabelsOk(p, secrets)
    ensures var more := Materialized(p, secrets, h);
      LabelsOk(p, more) && SecretOf(p, h) in more && secrets.Keys <= more.Keys
  {
  }

  lemma ConsultStatus(p: PolicySpec, s: State, c: Answers)
    ensures var st, s' := s.status, Consult(p, s, c);
      && s'.status.current == st.current
      && (s'.status.desired == st.desired
          || (c.upstream.Some? && s'.status.desired == c.upstream.value
              && s'.secrets == Materialized(p, s.secrets, c.upstream.value)))
  {
    hide Set, Remove, Materialized, Halted, Fresh, IsTrue;
  }

  lemma ConsultKeepsNames(p: PolicySpec, s: State, c: Answers)
    requires NamesOk(p, s)
    ensures NamesOk(p, Consult(p, s, c))
  {
    ConsultMoves(p, s, c);
    ConsultStatus(p, s, c);
    if c.upstream.Some? {
      MaterializingKeepsNames(p, s.secrets, c.upstream.value);
    }
  }

  lemma StepKeepsNames(p: PolicySpec, s: State, c: Answers)
    requires NamesOk(p, s)
    ensures NamesOk(p, Step(p, s, c))
  {
    if c.getPolicy {
      if Consults(p, s.status) {
        ConsultKeepsNames(p, s, c);
      } else if DetermineState(s.status) == At(RevisionPrepared) {
        ProvisionKeepsNames(p, s, c);
      } else if DetermineState(s.status) == At(RolloutProgressing) {
        AwaitKeepsNames(p, s, c);
      } else if DetermineState(s.status) == At(Validating) {
        ValidateKeepsNames(p, s, c);
      }
    }
  }

  lemma {:induction false} RunKeepsNames(p: PolicySpec, s: State, cs: seq<Answers>)
    requires NamesOk(p, s)
    ensures NamesOk(p, Run(p, s, cs))
    decreases |cs|
  {
    if |cs| > 0 {
      StepKeepsNames(p, s, cs[0]);
      RunKeepsNames(p, Step(p, s, cs[0]), cs[1..]);
    }
  }

  lemma StepKeepsExistence(p: PolicySpec, s: State, c: Answers)
    requires !IsRollout(p) && Steady(BindingOf(p), Managed(p)) && StatusOk(p, s.status) && ExistenceOk(p, s)
    ensures ExistenceOk(p, Step(p, s, c))
  {
    hide Step, RunProbes, ResolveKind, Threshold, BindingOf, Managed, Promoted, OwnRefs, Covered, Set, Remove;
    var s', b := Step(p, s, c), BindingOf(p);
    StatusMoves(p, s, c);
    ClusterMoves(p, s, c);
    if Promotes(p, s, c) {
      var desired := s.status.desired;
      PromotionReplacesOwnRefs(b, Managed(p), s.status.current, desired, SecretOf(p, desired), s.template);
      CollectionSpares(p, s.status, s.secrets, c, desired);
      if s.status.current != "" {
        CollectionSpares(p, s.status, s.secrets, c, s.status.current);
      }
    }
  }

  ghost predicate Invariant(p: PolicySpec, s: State) {
    StatusOk(p, s.status) && ExistenceOk(p, s)
  }

  lemma {:induction false} RunKeepsStatus(p: PolicySpec, s: State, cs: seq<Answers>)
    requires !IsRollout(p) && StatusOk(p, s.status)
    ensures StatusOk(p, Run(p, s, cs).status)
    decreases |cs|
  {
    if |cs| > 0 {
      StepKeepsStatus(p, s, cs[0]);
      RunKeepsStatus(p, Step(p, s, cs[0]), cs[1..]);
    }
  }

  lemma {:induction false} RunKeepsInvariant(p: PolicySpec, s: State, cs: seq<Answers>)
    requires !IsRollout(p) && Steady(BindingOf(p), Managed(p)) && Invariant(p, s)
    ensures Invariant(p, Run(p, s, cs))
    decreases |cs|
  {
    if |cs| > 0 {
      StepKeepsStatus(p, s, cs[0]);
      StepKeepsExistence(p, s, cs[0]);
      RunKeepsInvariant(p, Step(p, s, cs[0]), cs[1..]);
    }
  }

  /**
    In every reachable state exactly one phase condition is present while a revision is desired,
    the state machine reads it, and the breaker's record is consistent.
   */
  lemma PhasesAreExclusive(p: PolicySpec, s: State, cs: seq<Answers>)
    requires !IsRollout(p) && Initial(p, s)
    ensures var st := Run(p, s, cs).status;
      && StatusOk(p, st)
      && (DetermineState(st) == Idle <==> st.desired == "")
      && (st.desired != "" ==>
          exists t :: t in {RevisionPrepared, CanaryProvisioning, Validating} && DetermineState(st) == At(t) && Has(st.conditions, t))
  {
    RunKeepsStatus(p, s, cs);
    var st := Run(p, s, cs).status;
    PhaseIsTheCondition(st);
    if st.desired != "" {
      var t := DetermineState(st).kind;
      assert t in {RevisionPrepared, CanaryProvisioning, Validating} && Has(st.conditions, t);
    }
  }

  /** No run leaves a dangling reference, wherever calls fail between patch, collection and status write. */
  lemma NoDanglingReference(p: PolicySpec, s: State, cs: seq<Answers>)
    requires !IsRollout(p) && Steady(BindingOf(p), Managed(p)) && Initial(p, s)
    ensures NoDangling(p, Run(p, s, cs))
  {
    UntouchedIsCovered(BindingOf(p), Managed(p), s.template);
    RunKeepsInvariant(p, s, cs);
  }

  // ---------------------------------------------------------------- production isolation

  /** Step k of the run passes all probes for the revision. */
  predicate PassedAt(p: PolicySpec, s: State, cs: seq<Answers>, k: nat, revision: string) {
    k < |cs| && Passes(p, Run(p, s, cs[..k]), cs[k]) && Run(p, s, cs[..k]).status.desired == revision
  }

  ghost predicate MountedOnlyPassed(p: PolicySpec, s: State) {
    forall n :: n in OwnRevisions(p, s.template) ==> exists r :: r in s.history.passed && n == SecretOf(p, r)
  }

  lemma StepKeepsIsolation(p: PolicySpec, s: State, c: Answers)
    requires !IsRollout(p) && StatusOk(p, s.status) && MountedOnlyPassed(p, s)
    ensures MountedOnlyPassed(p, Step(p, s, c))
    ensures s.history.passed <= Step(p, s, c).history.passed
    ensures Step(p, s, c).template != s.template ==> Promotes(p, s, c)
  {
    HistoryMoves(p, s, c);
    ClusterMoves(p, s, c);
    var s' := Step(p, s, c);
    forall n | n in OwnRevisions(p, s'.template)
      ensures exists r :: r in s'.history.passed && n == SecretOf(p, r)
    {
      if Promotes(p, s, c) {
        PromotedRefs(BindingOf(p), s.status.current, s.status.desired, SecretOf(p, s.status.desired), s.template);
        assert s.status.desired in s'.history.passed;
      }
      if n != SecretOf(p, s.status.desired) || !Promotes(p, s, c) {
        assert n in OwnRevisions(p, s.template);
        var r :| r in s.history.passed && n == SecretOf(p, r);
        assert r in s'.history.passed;
      }
    }
  }

  lemma {:induction false} IsolationOverRuns(p: PolicySpec, s: State, cs: seq<Answers>)
    requires !IsRollout(p) && Initial(p, s)
    ensures var s' := Run(p, s, cs);
      && StatusOk(p, s'.status) && MountedOnlyPassed(p, s')
      && forall r :: r in s'.history.passed ==> exists k: nat :: PassedAt(p, s, cs, k, r)
    decreases |cs|
  {
    if |cs| > 0 {
      var n := |cs| - 1;
      var before := Run(p, s, cs[..n]);
      IsolationOverRuns(p, s, cs[..n]);
      RunSnoc(p, s, cs[..n], cs[n]);
      assert cs[..n] + [cs[n]] == cs;
      StepKeepsStatus(p, before, cs[n]);
      StepKeepsIsolation(p, before, cs[n]);
      HistoryMoves(p, before, cs[n]);
      forall r | r in Run(p, s, cs).history.passed ensures exists k: nat :: PassedAt(p, s, cs, k, r) {
        if r in before.history.passed {
          var k: nat :| PassedAt(p, s, cs[..n], k, r);
          assert cs[..n][..k] == cs[..k];
          assert PassedAt(p, s, cs, k, r);
        } else {
          assert PassedAt(p, s, cs, n, r);
        }
      }
    }
  }

  /**
    Every revision that production ever mounts passed the whole probe list in an earlier step of
    the run, and production changes only in a step that passes the list.
   */
  lemma ProductionIsolation(p: PolicySpec, s: State, cs: seq<Answers>, secretName: string)
    requires !IsRollout(p) && Initial(p, s)
    ensures secretName in OwnRevisions(p, Run(p, s, cs).template) ==>
      exists k: nat, r: string :: PassedAt(p, s, cs, k, r) && secretName == SecretOf(p, r)
    ensures forall c :: Step(p, Run(p, s, cs), c).template != Run(p, s, cs).template ==> Promotes(p, Run(p, s, cs), c)
  {
    IsolationOverRuns(p, s, cs);
    if secretName in OwnRevisions(p, Run(p, s, cs).template) {
      var r :| r in Run(p, s, cs).history.passed && secretName == SecretOf(p, r);
      var k: nat :| PassedAt(p, s, cs, k, r);
    }
    forall c ensures Step(p, Run(p, s, cs), c).template != Run(p, s, cs).template ==> Promotes(p, Run(p, s, cs), c) {
      StepKeepsIsolation(p, Run(p, s, cs), c);
    }
  }
}
