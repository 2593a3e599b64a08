/**
  Whether the pods that were probed are the pods that get promoted, over whole runs.
 */
module CanaryRuns {
  import opened Options
  import opened Naming
  import opened PodTemplate
  import opened TemplateLaws
  import opened Conditions
  import opened Rotation
  import opened Safety
  import opened Progress

  /** The canary that the desired revision asks for, cloned from production as it is. */
  function OwnCanary(p: PolicySpec, s: State): Template {
    CanaryOf(BindingOf(p), s.status.current, s.status.desired, SecretOf(p, s.status.desired), s.template)
  }

  predicate CanaryOk(p: PolicySpec, s: State) {
    s.canary.Some? ==> s.status.desired != "" && !Tripped(s.status) && s.canary.value == OwnCanary(p, s)
  }

  predicate CanariesDeleted(cs: seq<Answers>) {
    forall i :: 0 <= i < |cs| ==> cs[i].deleteCanary
  }

  lemma ConsultCanary(p: PolicySpec, s: State, c: Answers)
    ensures var s' := Consult(p, s, c);
      s'.template == s.template && (s'.canary == s.canary || s'.canary.None?)
  {
  }

  lemma ProvisionedCanary(p: PolicySpec, s: State, c: Answers)
    ensures var s' := ProvisionCanary(p, s, c);
      && s'.template == s.template && s'.status.current == s.status.current && s'.status.desired == s.status.desired
      && (s'.canary == s.canary || (s.canary.None? && s'.canary == Some(OwnCanary(p, s))))
  {
  }

  lemma StepKeepsCanary(p: PolicySpec, s: State, c: Answers)
    requires !IsRollout(p) && StatusOk(p, s.status) && CanaryOk(p, s) && c.deleteCanary
    ensures CanaryOk(p, Step(p, s, c))
  {
    hide Consult, ProvisionCanary, Validate, AwaitRollout, CleanedUp, Set, Remove, CanaryOf, BindingOf, SecretOf,
        RunProbes;
    StatusMoves(p, s, c);
    PhaseIsTheCondition(s.status);
    if c.getPolicy {
      if Consults(p, s.status) {
        ConsultCanary(p, s, c);
      } else if DetermineState(s.status) == At(RevisionPrepared) {
        ProvisionedCanary(p, s, c);
      } else if DetermineState(s.status) == At(Validating) {
        CanaryAfterValidation(p, s, c);
        ValidateMoves(p, s, c);
      }
    }
  }

  lemma {:induction false} RunKeepsCanary(p: PolicySpec, s: State, cs: seq<Answers>)
    requires !IsRollout(p) && StatusOk(p, s.status) && CanaryOk(p, s) && CanariesDeleted(cs)
    ensures CanaryOk(p, Run(p, s, cs))
    decreases |cs|
  {
    if |cs| > 0 {
      StepKeepsCanary(p, s, cs[0]);
      StepKeepsStatus(p, s, cs[0]);
      RunKeepsCanary(p, Step(p, s, cs[0]), cs[1..]);
    }
  }

  /** While a revision is being validated, and the breaker is closed, a canary stands. */
  predicate Standing(p: PolicySpec, s: State) {
    (Has(s.status.conditions, CanaryProvisioning) || Has(s.status.conditions, Validating)) && !Tripped(s.status) ==>
      s.canary.Some?
  }

  lemma ProvisionedStands(p: PolicySpec, s: State, c: Answers)
    ensures var s' := ProvisionCanary(p, s, c); s'.status != s.status ==> s'.canary.Some?
  {
    hide With, Without, CanaryOf, BindingOf, SecretOf;
  }

  lemma StepKeepsStanding(p: PolicySpec, s: State, c: Answers)
    requires !IsRollout(p) && StatusOk(p, s.status) && Standing(p, s) && c.writeStatus
    ensures Standing(p, Step(p, s, c))
  {
    hide ProvisionCanary, Validate, AwaitRollout, Set, Remove, BindingOf, SecretOf, RunProbes, Materialized, Fresh;
    StatusMoves(p, s, c);
    WrittenMoves(p, s, c);
    PhaseIsTheCondition(s.status);
    if c.getPolicy && !Consults(p, s.status) {
      if DetermineState(s.status) == At(RevisionPrepared) {
        ProvisionedStands(p, s, c);
      } else if DetermineState(s.status) == At(Validating) {
        CanaryAfterValidation(p, s, c);
      }
    }
  }

  lemma {:induction false} RunKeepsStanding(p: PolicySpec, s: State, cs: seq<Answers>)
    requires !IsRollout(p) && StatusOk(p, s.status) && Standing(p, s) && AllWritten(cs)
    ensures Standing(p, Run(p, s, cs))
    decreases |cs|
  {
    hide Step, Standing, StatusOk;
    if |cs| > 0 {
      StepKeepsStanding(p, s, cs[0]);
      StepKeepsStatus(p, s, cs[0]);
      RunKeepsStanding(p, Step(p, s, cs[0]), cs[1..]);
    }
  }

  /** The promotion follows a pass on a canary that stands and runs exactly the promoted pod spec. */
  predicate PromotesValidated(p: PolicySpec, s: State, c: Answers) {
    s.canary.Some? && s.canary.value.spec == Step(p, s, c).template.spec
  }

  /**
    In a run in which no canary deletion fails and every status write is accepted, a promotion
    always follows a pass on a standing canary of its own revision; and that canary runs exactly
    the promoted pod spec if and only if the two matching rules agree on production's references
    or the variable is bound explicitly. The second half needs the deletions only.
   */
  lemma ValidatedIsPromoted(p: PolicySpec, s: State, cs: seq<Answers>, c: Answers)
    requires !IsRollout(p) && Initial(p, s) && CanariesDeleted(cs) && Promotes(p, Run(p, s, cs), c)
    ensures var s1 := Run(p, s, cs);
      && (AllWritten(cs) ==> s1.canary.Some?)
      && (s1.canary.Some? ==> s1.canary.value == OwnCanary(p, s1))
      && (s1.canary.Some? ==> (PromotesValidated(p, s1, c) <==> RulesFit(p, s1)))
  {
    hide Run, Standing, CanaryOf, Promoted, Step, RunProbes, BindingOf, SecretOf, RulesAgree;
    InitialStands(p, s);
    RunKeepsStatus(p, s, cs);
    RunKeepsCanary(p, s, cs);
    var s1 := Run(p, s, cs);
    if AllWritten(cs) {
      RunKeepsStanding(p, s, cs);
      StandsAtValidation(p, s1, c);
    }
    ClusterMoves(p, s1, c);
    CanaryIsPromotion(BindingOf(p), s1.status.current, s1.status.desired, SecretOf(p, s1.status.desired), s1.template);
  }

  /** The variable is bound explicitly, or both matching rules agree on production's references. */
  ghost predicate RulesFit(p: PolicySpec, s: State) {
    var b, secretName := BindingOf(p), SecretOf(p, s.status.desired);
    || b.envName != ""
    || (RulesAgree(b, s.status.current, secretName, s.template.spec.containers)
        && RulesAgree(b, s.status.current, secretName, s.template.spec.initContainers))
  }

  lemma InitialStands(p: PolicySpec, s: State)
    requires Initial(p, s)
    ensures Standing(p, s) && StatusOk(p, s.status) && CanaryOk(p, s)
  {
    hide OwnRevisions, LabelsOk;
  }

  lemma StandsAtValidation(p: PolicySpec, s: State, c: Answers)
    requires Validates(p, s, c) && StatusOk(p, s.status) && Standing(p, s)
    ensures s.canary.Some?
  {
    PhaseIsTheCondition(s.status);
  }

  // ---------------------------------------------------------------- the canary left behind

  /**
    Creating a canary accepts one that is already there. So after a single failed deletion the
    next rotation is validated on, and promoted after, a canary of the previous revision.
   */
  lemma FailedCleanupLeavesStaleCanary(p: PolicySpec, s: State, r1: Revision, r2: Revision)
    requires !IsRollout(p) && ResolveKind(p.kind).Some? && p.probes == [] && Initial(p, s) && r1 != r2
    ensures var c1, c2 := Smooth(r1).(deleteCanary := false), Smooth(r2);
      var s1 := Run(p, s, [c1, c1, c1, c1] + [c2, c2, c2]);
      && Promotes(p, s1, c2) && s1.status.desired == r2 && s1.status.current == r1
      && s1.canary == Some(CanaryOf(BindingOf(p), "", r1, SecretOf(p, r1), s.template))
      && s1.canary.value.annotations[ANNOTATION_REVISION] == r1
      && s1.template == Promoted(BindingOf(p), "", r1, SecretOf(p, r1), s.template)
  {
    var c1, c2 := Smooth(r1).(deleteCanary := false), Smooth(r2);
    OneRotation(p, s, r1, c1);
    var rest := Run(p, s, [c1, c1, c1, c1]);
    ReachProbes(p, rest, r2, c2);
    RunConcat(p, s, [c1, c1, c1, c1], [c2, c2, c2]);
  }

  // ---------------------------------------------------------------- no canary at all

  lemma ReachPromotion(p: PolicySpec, s: State, h: Revision)
    requires !IsRollout(p) && ResolveKind(p.kind).Some? && p.probes == [] && Initial(p, s)
    ensures var s3 := Run(p, s, [Smooth(h), Smooth(h), Smooth(h)]);
      && Rotating(p, s, h, s3, Validating)
      && (forall c: Answers :: c.getPolicy && c.fetchTarget && c.patch ==> Promotes(p, s3, c))
      && s3.canary == Some(CanaryOf(BindingOf(p), "", h, SecretOf(p, h), s.template))
  {
    hide Run, CanaryOf, BindingOf, SecretOf, OwnRevisions;
    ReachProbes(p, s, h, Smooth(h));
  }

  /**
    A promotion whose status write is lost has removed its canary, and is repeated: the second
    promotion follows a pass with no canary to probe.
   */
  lemma RepeatedPromotionHasNoCanary(p: PolicySpec, s: State, h: Revision)
    requires !IsRollout(p) && ResolveKind(p.kind).Some? && p.probes == [] && Initial(p, s)
    ensures var c := Smooth(h); var s1 := Run(p, s, [c, c, c] + [c.(writeStatus := false)]);
      Promotes(p, s1, c) && s1.canary.None? && s1.history.patches == [h]
  {
    var c := Smooth(h);
    var lost := c.(writeStatus := false);
    ReachPromotion(p, s, h);
    var s3 := Run(p, s, [c, c, c]);
    RunSnoc(p, s, [c, c, c], lost);
    assert Promotes(p, s3, lost);
    hide Run, SecretOf, BindingOf, Promoted, OwnRevisions, CanaryOf;
    PromotionWithLostWrite(p, s3, lost);
  }

  lemma PromotionWithLostWrite(p: PolicySpec, s: State, c: Answers)
    requires Promotes(p, s, c) && c.deleteCanary && !c.writeStatus
    ensures var s' := Step(p, s, c);
      s'.status == s.status && s'.canary.None? && s'.history.patches == s.history.patches + [s.status.desired]
  {
    hide RunProbes, Promoted, BindingOf, SecretOf, Collected, ResolveKind, Set, Remove;
  }

  /** A refused pass and an accepted pass of a single network probe. */
  function Answering(h: Revision, network: NetworkAnswer): Answers {
    Smooth(h).(probes := [SILENT.(network := network)])
  }

  lemma SingleProbe(p: PolicySpec, s: State, h: Revision, network: NetworkAnswer, kind: string, written: bool)
    requires p.probes == [NetworkProbe(kind)] && SecretOf(p, s.status.desired) in s.secrets
    ensures var r := RunProbes(p, s, Answering(h, network).(writeStatus := written));
      && (network.Rejected? ==> r == ProbeResult(Refused, s.jobs, s.history.jobWins))
      && (network.Accepted? ==> r == ProbeResult(Passed, s.jobs, s.history.jobWins))
  {
    var c := Answering(h, network).(writeStatus := written);
    assert ProbesFrom(p, s.status, s.jobs, s.history.jobWins, c, 1) == ProbeResult(Passed, s.jobs, s.history.jobWins);
  }

  lemma TripWithLostWrite(p: PolicySpec, s: State, c: Answers)
    requires Validates(p, s, c) && s.status.failures + 1 >= Threshold(p) && !c.writeStatus && c.deleteCanary
    requires RunProbes(p, s, c) == ProbeResult(Refused, s.jobs, s.history.jobWins)
    ensures var s' := Step(p, s, c);
      s'.status == s.status && s'.canary.None? && s'.history == s.history && s'.template == s.template && s'.secrets == s.secrets
  {
    hide RunProbes, Set, Remove;
  }

  /**
    The breaker trips, the write that records it is lost and the canary is removed all the same.
    The next pass probes without a canary and promotes: the first promotion of this policy.
   */
  lemma LostTripPromotesWithoutCanary(p: PolicySpec, s: State, h: Revision, kind: string)
    requires !IsRollout(p) && ResolveKind(p.kind).Some? && Threshold(p) == 1 && p.probes == [NetworkProbe(kind)]
    requires Initial(p, s)
    ensures var c := Smooth(h);
      var s1 := Run(p, s, [c, c, c] + [Answering(h, Rejected).(writeStatus := false)]);
      && Promotes(p, s1, Answering(h, Accepted)) && s1.canary.None?
      && s1.history.passed == {} && s1.history.patches == []
  {
    var c, refused := Smooth(h), Answering(h, Rejected).(writeStatus := false);
    ReachProbes(p, s, h, c);
    var s3 := Run(p, s, [c, c, c]);
    RunSnoc(p, s, [c, c, c], refused);
    hide Run, Promoted, CanaryOf, OwnRevisions;
    assert SecretOf(p, h) in s3.secrets;
    SingleProbe(p, s3, h, Rejected, kind, false);
    TripWithLostWrite(p, s3, refused);
    SingleProbe(p, Step(p, s3, refused), h, Accepted, kind, true);
  }

  // ---------------------------------------------------------------- three runs that promote what was not validated

  /** A selected container with one variable, and nothing else. */
  function OneVariable(b: Binding, env: seq<EnvVar>): Template {
    Template(map[], map[], PodSpec([], [Container(b.containerName, env, [], "")], [], ""))
  }

  /** A reference that only its key connects with the object. */
  function KeyOnly(b: Binding): EnvVar {
    var name := if b.objectName == "" then "x" else "";
    EnvVar("V", "", Some(EnvSource(Some(KeySelector(name, b.objectName, None)), "")))
  }

  lemma OneVariableRefs(b: Binding, managed: string, env: seq<EnvVar>)
    requires forall i :: 0 <= i < |env| && RefersToSecret(env[i]) ==> |EnvRef(env[i]).name| < 5
    ensures OwnRefs(b, managed, OneVariable(b, env)) == {}
  {
    var t := OneVariable(b, env);
    assert VolumeRefs(t.spec.volumes) == {} && ContainerRefs(t.spec.initContainers) == {};
    assert EnvFromRefs(t.spec.containers[0].envFrom) == {};
    assert forall n :: n in ContainerRefs(t.spec.containers) ==> n in EnvRefs(t.spec.containers[0].env);
    assert forall n :: n in EnvRefs(env) ==> |n| < 5;
    assert forall n :: Own(b, managed, n) ==> |n| >= 5;
  }

  lemma KeyOnlyDisagrees(b: Binding, secretName: string)
    requires |secretName| >= 5
    ensures !RulesAgree(b, "", secretName, OneVariable(b, [KeyOnly(b)]).spec.containers)
  {
    var e := KeyOnly(b);
    assert |RevisionPrefix(b.target, b.objectName)| >= 5 && |b.target + "-rev-"| >= 5;
    assert b.objectName == "" ==> b.target + "-" + b.objectName != "x" by {
      assert (b.target + "-")[|b.target|] == '-';
      assert b.target + "-" + "" == b.target + "-";
    }
    assert MatchesEnv(Canary, b, "", EnvRef(e)) && !MatchesEnv(Promotion, b, "", EnvRef(e));
    assert !RulesAgreeOn(b, "", secretName, OneVariable(b, [e]).spec.containers[0].env[0]);
  }

  /** Without an explicit variable: a reference that only the canary matches. */
  lemma KeyOnlyRun(q: PolicySpec, h: Revision)
    requires BindingOf(q).envName == "" && !IsRollout(q) && ResolveKind(q.kind).Some? && q.probes == []
    ensures var s := StartWith(OneVariable(BindingOf(q), [KeyOnly(BindingOf(q))])); var c := Smooth(h);
      && Initial(q, s) && Promotes(q, Run(q, s, [c, c, c]), c)
      && !PromotesValidated(q, Run(q, s, [c, c, c]), c)
  {
    hide Run, Step, Promoted, CanaryOf, RulesAgree, BindingOf, RunProbes, Initial, OwnRefs, StatusOk, IsRollout, ResolveKind,
         KeyOnly, DetermineState, Managed;
    var b := BindingOf(q);
    var t := OneVariable(b, [KeyOnly(b)]);
    var s, c := StartWith(t), Smooth(h);
    KeyOnlyIsShort(b);
    OneVariableRefs(b, Managed(q), [KeyOnly(b)]);
    StartIsInitial(q, t);
    ReachPromotion(q, s, h);
    KeyOnlyDisagrees(b, SecretOf(q, h));
    ClusterMoves(q, Run(q, s, [c, c, c]), c);
    CanaryIsPromotion(b, "", h, SecretOf(q, h), t);
  }

  lemma KeyOnlyIsShort(b: Binding)
    ensures RefersToSecret(KeyOnly(b)) && |EnvRef(KeyOnly(b)).name| < 5
  {
  }

  lemma BoundOnce(rule: Rule, b: Binding, current: string, secretName: string, env: seq<EnvVar>)
    requires b.envName != "" && (env == [] || (|env| == 1 && env[0].name == b.envName))
    ensures RewriteSpec(rule, b, current, secretName, OneVariable(b, env).spec)
         == OneVariable(b, [BoundEnv(b, secretName)]).spec
  {
    var c := OneVariable(b, env).spec.containers[0];
    assert RewriteEnv(rule, b, current, secretName, env) == [BoundEnv(b, secretName)];
    assert RewriteEnvFrom(b, current, secretName, []) == [];
    assert RewriteContainers(rule, b, current, secretName, [c]) == [RewriteContainer(rule, b, current, secretName, c)];
    assert RewriteContainers(rule, b, current, secretName, []) == [] && RewriteVolumes(b, secretName, []) == [];
  }

  /** Two rotations of a single bound variable, as the canary of the first and the promotion of the second leave it. */
  lemma BoundTwice(b: Binding, s1: string, s2: string, current: string, r1: string, r2: string)
    requires b.envName != "" && s1 != s2
    ensures var t := OneVariable(b, []);
      CanaryOf(b, "", r1, s1, t).spec != Promoted(b, current, r2, s2, Promoted(b, "", r1, s1, t)).spec
  {
    hide RewriteSpec;
    BoundOnce(Canary, b, "", s1, []);
    BoundOnce(Promotion, b, "", s1, []);
    BoundOnce(Promotion, b, current, s2, [BoundEnv(b, s1)]);
    assert OneVariable(b, [BoundEnv(b, s1)]).spec.containers[0].env[0] == BoundEnv(b, s1);
    assert OneVariable(b, [BoundEnv(b, s2)]).spec.containers[0].env[0] == BoundEnv(b, s2);
  }

  /** After one failed deletion: the canary has the previous secret. */
  lemma StaleRun(q: PolicySpec, r1: Revision, r2: Revision)
    requires BindingOf(q).envName != "" && !IsRollout(q) && ResolveKind(q.kind).Some? && q.probes == [] && r1 != r2
    ensures var s := StartWith(OneVariable(BindingOf(q), [])); var c1, c2 := Smooth(r1).(deleteCanary := false), Smooth(r2);
      var s1 := Run(q, s, [c1, c1, c1, c1] + [c2, c2, c2]);
      Initial(q, s) && Promotes(q, s1, c2) && !PromotesValidated(q, s1, c2)
  {
    hide Run, Step, Promoted, CanaryOf, BindingOf, SecretOf, RunProbes, Initial, OwnRefs, StatusOk, IsRollout, ResolveKind,
         DetermineState, Managed, OneVariable;
    var b := BindingOf(q);
    var t := OneVariable(b, []);
    var c1, c2 := Smooth(r1).(deleteCanary := false), Smooth(r2);
    var s1 := Run(q, StartWith(t), [c1, c1, c1, c1] + [c2, c2, c2]);
    OneVariableRefs(b, Managed(q), []);
    StartIsInitial(q, t);
    FailedCleanupLeavesStaleCanary(q, StartWith(t), r1, r2);
    SecretOfInjective(q, r1, r2);
    ClusterMoves(q, s1, c2);
    BoundTwice(b, SecretOf(q, r1), SecretOf(q, r2), r1, r1, r2);
  }

  /** After one lost status write: there is no canary. */
  lemma LostWriteRun(q: PolicySpec, h: Revision)
    requires !IsRollout(q) && ResolveKind(q.kind).Some? && q.probes == []
    ensures var s := StartWith(OneVariable(BindingOf(q), [])); var c := Smooth(h);
      var s1 := Run(q, s, [c, c, c] + [c.(writeStatus := false)]);
      Initial(q, s) && Promotes(q, s1, c) && !PromotesValidated(q, s1, c)
  {
    hide Run, Step, Promotes, BindingOf, Managed, OneVariable, Initial, OwnRefs, IsRollout, ResolveKind;
    OneVariableRefs(BindingOf(q), Managed(q), []);
    StartIsInitial(q, OneVariable(BindingOf(q), []));
    RepeatedPromotionHasNoCanary(q, StartWith(OneVariable(BindingOf(q), [])), h);
  }
}
