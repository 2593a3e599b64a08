/**
  How runs move: what the breaker counts, where the machine rests, and that it comes to a
  verdict.
 */
module Progress {
  import opened Options
  import opened Naming
  import opened PodTemplate
  import opened Conditions
  import opened Rotation
  import opened Safety

  // ---------------------------------------------------------------- the breaker's count

  /** The failed validations of the run since the desired revision last changed, `n` of which came before. */
  function FailuresSince(p: PolicySpec, s: State, cs: seq<Answers>, n: nat): nat
    decreases |cs|
  {
    if |cs| == 0 then n
    else
      var s' := Step(p, s, cs[0]);
      FailuresSince(p, s', cs[1..],
        if s'.status.desired != s.status.desired then 0 else if Fails(p, s, cs[0]) then n + 1 else n)
  }

  predicate AllWritten(cs: seq<Answers>) {
    forall i :: 0 <= i < |cs| ==> cs[i].writeStatus
  }

  lemma StepCounts(p: PolicySpec, s: State, c: Answers)
    requires !IsRollout(p) && StatusOk(p, s.status)
    ensures var s' := Step(p, s, c);
      if s'.status.desired != s.status.desired then s'.status.failures == 0
      else if Fails(p, s, c) && c.writeStatus then s'.status.failures == s.status.failures + 1
      else s'.status.failures == s.status.failures
  {
    hide Step, Set, Remove, RunProbes, DetermineState;
    PhaseIsTheCondition(s.status);
    StatusMoves(p, s, c);
    if c.writeStatus {
      WrittenMoves(p, s, c);
    }
  }

  lemma {:induction false} CountIsKept(p: PolicySpec, s: State, cs: seq<Answers>, n: nat)
    requires !IsRollout(p) && StatusOk(p, s.status) && s.status.failures <= n
    ensures Run(p, s, cs).status.failures <= FailuresSince(p, s, cs, n)
    ensures AllWritten(cs) && s.status.failures == n ==> Run(p, s, cs).status.failures == FailuresSince(p, s, cs, n)
    decreases |cs|
  {
    if |cs| > 0 {
      StepCounts(p, s, cs[0]);
      StepKeepsStatus(p, s, cs[0]);
      var s' := Step(p, s, cs[0]);
      CountIsKept(p, s', cs[1..], if s'.status.desired != s.status.desired then 0 else if Fails(p, s, cs[0]) then n + 1 else n);
    }
  }

  /**
    ConsecutiveFailures is the number of failed validations since DesiredRevision was last set
    when every status write succeeds, and never more than that; it never passes the threshold,
    is zero before validation starts, and the breaker is open exactly at the threshold.
   */
  lemma BreakerAccounting(p: PolicySpec, s: State, cs: seq<Answers>)
    requires !IsRollout(p) && Initial(p, s)
    ensures var st := Run(p, s, cs).status;
      && 0 <= st.failures <= Threshold(p)
      && st.failures <= FailuresSince(p, s, cs, 0)
      && (AllWritten(cs) ==> st.failures == FailuresSince(p, s, cs, 0))
      && (DetermineState(st) in {Idle, At(RevisionPrepared), At(CanaryProvisioning)} ==> st.failures == 0)
      && (IsTrue(st.conditions, CircuitBreakerTripped) <==> st.failures == Threshold(p))
  {
    CountIsKept(p, s, cs, 0);
    RunKeepsStatus(p, s, cs);
  }

  // ---------------------------------------------------------------- where the machine rests

  /** The upstream payload cannot be fetched, or is one of the two revisions the policy knows. */
  predicate UpstreamKnown(st: Status, c: Answers) {
    c.upstream.Some? ==> c.upstream.value == st.current || c.upstream.value == st.desired
  }

  predicate Tripped(st: Status) {
    IsTrue(st.conditions, CircuitBreakerTripped)
  }

  predicate InSync(p: PolicySpec, st: Status) {
    st.desired == "" && !Halted(p, st)
  }

  /** A halted or in-sync policy is left alone: no status, secret, template or canary changes. */
  lemma RestingStep(p: PolicySpec, s: State, c: Answers)
    requires NamesOk(p, s) && (Tripped(s.status) || InSync(p, s.status)) && UpstreamKnown(s.status, c)
    ensures Step(p, s, c) == s
  {
    hide Set, Remove, Advance, SecretOf;
  }

  lemma {:induction false} RestingRun(p: PolicySpec, s: State, cs: seq<Answers>)
    requires NamesOk(p, s) && (Tripped(s.status) || InSync(p, s.status))
    requires forall i :: 0 <= i < |cs| ==> UpstreamKnown(s.status, cs[i])
    ensures Run(p, s, cs) == s
    decreases |cs|
  {
    if |cs| > 0 {
      RestingStep(p, s, cs[0]);
      RestingRun(p, s, cs[1..]);
    }
  }

  /**
    From a reachable halted or in-sync state the status changes exactly when a fresh upstream
    revision is found and the write succeeds, and then to that revision with no failures.
   */
  lemma OnlyFreshUpstreamLeaves(p: PolicySpec, s: State, cs: seq<Answers>, c: Answers)
    requires Initial(p, s)
    requires var st := Run(p, s, cs).status; Tripped(st) || InSync(p, st)
    ensures var s1 := Run(p, s, cs); var st' := Step(p, s1, c).status;
      && (st' != s1.status <==> FindsFresh(p, s1, c) && c.writeStatus)
      && (UpstreamKnown(s1.status, c) ==> Step(p, s1, c) == s1)
      && (st' != s1.status ==>
        && st'.failures == 0 && st'.desired == c.upstream.value && st'.current == s1.status.current
        && !Tripped(st') && Has(st'.conditions, RevisionPrepared))
  {
    hide Run, Set, Remove, Advance, SecretOf, CleanedUp, LabelsOk, OwnRevisions;
    var s1 := Run(p, s, cs);
    RunKeepsNames(p, s, cs);
    if UpstreamKnown(s1.status, c) {
      RestingStep(p, s1, c);
    }
  }

  // ---------------------------------------------------------------- convergence

  /** Upstream stays at h and every call succeeds. */
  predicate Undisturbed(h: Revision, c: Answers) {
    && c.getPolicy && c.upstream == Some(h) && c.createSecret && c.writeStatus
    && c.fetchTarget && c.createCanary && c.createNetpol && c.patch && c.getSecret
  }

  /** Every probe is a network probe. */
  predicate Synchronous(p: PolicySpec) {
    forall i :: 0 <= i < |p.probes| ==> p.probes[i].NetworkProbe?
  }

  predicate GivesVerdicts(p: PolicySpec, c: Answers) {
    forall i :: 0 <= i < |p.probes| ==> !AnswerOf(c, i).network.AwaitingCanary?
  }

  lemma {:induction false} VerdictsDecide(p: PolicySpec, s: State, c: Answers, i: nat)
    requires Synchronous(p) && GivesVerdicts(p, c) && i <= |p.probes|
    ensures !ProbesFrom(p, s.status, s.jobs, s.history.jobWins, c, i).outcome.Waiting?
    decreases |p.probes| - i
  {
    if i < |p.probes| {
      VerdictsDecide(p, s, c, i + 1);
    }
  }

  /** Reconciles left before a verdict at the latest: phases to go, then attempts to go. */
  function Measure(p: PolicySpec, st: Status): int {
    Rank(st) + Threshold(p) - st.failures
  }

  function Rank(st: Status): nat {
    match DetermineState(st)
    case Idle => 3
    case At(RevisionPrepared) => 2
    case At(CanaryProvisioning) => 1
    case _ => 0
  }

  /** There is something to do: a rotation is running, or upstream is not what production has. */
  predicate Drifted(st: Status, h: Revision) {
    st.desired == "" ==> st.current != h
  }

  lemma StepProgresses(p: PolicySpec, s: State, h: Revision, c: Answers)
    requires !IsRollout(p) && ResolveKind(p.kind).Some? && Synchronous(p) && StatusOk(p, s.status)
    requires !Tripped(s.status) && Drifted(s.status, h) && Undisturbed(h, c) && GivesVerdicts(p, c)
    ensures var s' := Step(p, s, c);
      || Promotes(p, s, c)
      || Tripped(s'.status)
      || (!Tripped(s'.status) && Drifted(s'.status, h) && Measure(p, s'.status) == Measure(p, s.status) - 1)
  {
    PhaseIsTheCondition(s.status);
    StepKeepsStatus(p, s, c);
    PhaseIsTheCondition(Step(p, s, c).status);
    WrittenMoves(p, s, c);
    if DetermineState(s.status) == At(Validating) {
      VerdictsDecide(p, s, c, 0);
    }
  }

  predicate SettledAt(p: PolicySpec, s: State, cs: seq<Answers>, k: nat) {
    k < |cs| && (Promotes(p, Run(p, s, cs[..k]), cs[k]) || Tripped(Run(p, s, cs[..k + 1]).status))
  }

  lemma {:induction false} ConvergesWithin(p: PolicySpec, s: State, h: Revision, cs: seq<Answers>)
    requires !IsRollout(p) && ResolveKind(p.kind).Some? && Synchronous(p) && StatusOk(p, s.status)
    requires !Tripped(s.status) && Drifted(s.status, h)
    requires forall i :: 0 <= i < |cs| ==> Undisturbed(h, cs[i]) && GivesVerdicts(p, cs[i])
    requires |cs| >= Measure(p, s.status)
    ensures exists k: nat :: SettledAt(p, s, cs, k)
    decreases |cs|
  {
    hide Step, Undisturbed, GivesVerdicts, Promotes;
    assert Measure(p, s.status) > 0;
    var s' := Step(p, s, cs[0]);
    StepProgresses(p, s, h, cs[0]);
    StepKeepsStatus(p, s, cs[0]);
    assert cs[..0] == [] && cs[..1] == [cs[0]] && [cs[0]][1..] == [];
    assert Run(p, s, cs[..0]) == s && Run(p, s, cs[..1]) == s';
    if Promotes(p, s, cs[0]) || Tripped(s'.status) {
      assert SettledAt(p, s, cs, 0);
    } else {
      ConvergesWithin(p, s', h, cs[1..]);
      var k: nat :| SettledAt(p, s', cs[1..], k);
      RunShift(p, s, cs, k);
      RunShift(p, s, cs, k + 1);
      assert SettledAt(p, s, cs, k + 1);
    }
  }

  lemma RunShift(p: PolicySpec, s: State, cs: seq<Answers>, k: nat)
    requires k < |cs|
    ensures Run(p, s, cs[..k + 1]) == Run(p, Step(p, s, cs[0]), cs[1..][..k])
  {
    assert cs[..k + 1][1..] == cs[1..][..k];
  }

  /**
    With upstream frozen, every call succeeding and synchronous probes giving verdicts, a policy
    with drift is promoted or its breaker opens within three reconciles and one per attempt.
   */
  lemma Convergence(p: PolicySpec, s: State, before: seq<Answers>, h: Revision, cs: seq<Answers>)
    requires !IsRollout(p) && ResolveKind(p.kind).Some? && Synchronous(p) && Initial(p, s)
    requires var st := Run(p, s, before).status; !Tripped(st) && Drifted(st, h)
    requires forall i :: 0 <= i < |cs| ==> Undisturbed(h, cs[i]) && GivesVerdicts(p, cs[i])
    requires |cs| >= 3 + Threshold(p)
    ensures exists k: nat :: SettledAt(p, Run(p, s, before), cs, k)
  {
    RunKeepsStatus(p, s, before);
    ConvergesWithin(p, Run(p, s, before), h, cs);
  }

  // ---------------------------------------------------------------- one rotation, step by step

  /** The canary that is there once one was asked for: a new one, or whatever was there before. */
  function CanaryAfter(p: PolicySpec, s: State, h: string): Option<Template> {
    if s.canary.Some? then s.canary
    else Some(CanaryOf(BindingOf(p), s.status.current, h, SecretOf(p, h), s.template))
  }

  /** The rotation to h that started in s has come to s', in the given phase and not halted. */
  predicate Rotating(p: PolicySpec, s: State, h: Revision, s': State, phase: ConditionType) {
    && StatusOk(p, s'.status) && s'.status.desired == h && s'.status.current == s.status.current
    && DetermineState(s'.status) == At(phase) && !Halted(p, s'.status)
    && s'.template == s.template && s'.secrets == Materialized(p, s.secrets, h)
    && s'.jobs == s.jobs && s'.history == s.history.(cyclePatched := false)
  }

  lemma ToPrepared(p: PolicySpec, s: State, h: Revision, c: Answers)
    requires !IsRollout(p) && Undisturbed(h, c)
    requires StatusOk(p, s.status) && s.status.desired == "" && s.status.current != h
    ensures Rotating(p, s, h, Step(p, s, c), RevisionPrepared) && Step(p, s, c).canary == s.canary
  {
    hide Set, Remove, SecretOf, Advance, Materialized;
    StepKeepsStatus(p, s, c);
    PhaseIsTheCondition(Step(p, s, c).status);
    assert Has(Step(p, s, c).status.conditions, RevisionPrepared);
  }

  lemma ToProvisioned(p: PolicySpec, s: State, h: Revision, s1: State, c: Answers)
    requires !IsRollout(p) && ResolveKind(p.kind).Some? && Undisturbed(h, c)
    requires Rotating(p, s, h, s1, RevisionPrepared) && s1.canary == s.canary
    ensures Rotating(p, s, h, Step(p, s1, c), CanaryProvisioning) && Step(p, s1, c).canary == CanaryAfter(p, s, h)
  {
    hide Set, Remove, SecretOf, Consult, Validate, AwaitRollout, Materialized, CanaryOf, BindingOf;
    StepKeepsStatus(p, s1, c);
    PhaseIsTheCondition(Step(p, s1, c).status);
    assert Has(Step(p, s1, c).status.conditions, CanaryProvisioning);
  }

  lemma ToValidating(p: PolicySpec, s: State, h: Revision, s2: State, c: Answers)
    requires !IsRollout(p) && Undisturbed(h, c) && Rotating(p, s, h, s2, CanaryProvisioning)
    ensures Rotating(p, s, h, Step(p, s2, c), Validating) && Step(p, s2, c).canary == s2.canary
  {
    hide Set, Remove, SecretOf, Consult, Provision, Validate, AwaitRollout, Materialized;
    StepKeepsStatus(p, s2, c);
    PhaseIsTheCondition(Step(p, s2, c).status);
    assert Has(Step(p, s2, c).status.conditions, Validating);
  }

  /** Three undisturbed reconciles from rest bring a fresh revision before the probes. */
  lemma ReachProbes(p: PolicySpec, s: State, h: Revision, c: Answers)
    requires !IsRollout(p) && ResolveKind(p.kind).Some? && Undisturbed(h, c)
    requires StatusOk(p, s.status) && s.status.desired == "" && s.status.current != h
    ensures var s' := Run(p, s, [c, c, c]); Rotating(p, s, h, s', Validating) && s'.canary == CanaryAfter(p, s, h)
  {
    hide Run, Step, Rotating, StatusOk, Undisturbed, CanaryAfter;
    RunSnoc(p, s, [], c);
    RunSnoc(p, s, [c], c);
    RunSnoc(p, s, [c, c], c);
    assert [] + [c] == [c] && [c] + [c] == [c, c] && [c, c] + [c] == [c, c, c];
    RunNothing(p, s);
    ToPrepared(p, s, h, c);
    ToProvisioned(p, s, h, Step(p, s, c), c);
    ToValidating(p, s, h, Run(p, s, [c, c]), c);
  }

  lemma RunNothing(p: PolicySpec, s: State)
    ensures Run(p, s, []) == s
  {
  }

  /** What one undisturbed rotation comes to. */
  predicate Rotated(p: PolicySpec, s: State, h: Revision, c: Answers, s': State) {
    && s'.status.desired == "" && s'.status.current == h && StatusOk(p, s'.status)
    && s'.template == Promoted(BindingOf(p), s.status.current, h, SecretOf(p, h), s.template)
    && s'.secrets == Collected(p, s.status.(desired := h), Materialized(p, s.secrets, h), c)
    && s'.canary == if c.deleteCanary then None else CanaryAfter(p, s, h)
  }

  lemma OneRotation(p: PolicySpec, s: State, h: Revision, c: Answers)
    requires !IsRollout(p) && ResolveKind(p.kind).Some? && p.probes == [] && Undisturbed(h, c)
    requires StatusOk(p, s.status) && s.status.desired == "" && s.status.current != h
    ensures Rotated(p, s, h, c, Run(p, s, [c, c, c, c]))
  {
    ReachProbes(p, s, h, c);
    var s3 := Run(p, s, [c, c, c]);
    RunSnoc(p, s, [c, c, c], c);
    assert [c, c, c] + [c] == [c, c, c, c];
    assert Promotes(p, s3, c);
    WrittenMoves(p, s3, c);
    ClusterMoves(p, s3, c);
    StepKeepsStatus(p, s3, c);
    CanaryAfterValidation(p, s3, c);
  }

  lemma CanaryAfterValidation(p: PolicySpec, s: State, c: Answers)
    requires Validates(p, s, c)
    ensures Step(p, s, c).canary ==
      if c.deleteCanary && (Promotes(p, s, c) || (Fails(p, s, c) && s.status.failures + 1 >= Threshold(p)))
      then None else s.canary
  {
    hide With, Without, RunProbes, Promoted, BindingOf, SecretOf, Collected, ResolveKind, Threshold;
  }
}
