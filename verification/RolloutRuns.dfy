/**
  Runs of a policy that targets an Argo Rollout: when recording a revision as current is
  backed by a patch, and when it is not.
 */
module RolloutRuns {
  import opened Options
  import opened Naming
  import opened PodTemplate
  import opened TemplateLaws
  import opened Conditions
  import opened Rotation
  import opened Safety
  import opened Progress

  /** The step polls the Rollout, finds it Healthy at its own generation and records the revision. */
  predicate Finalizes(p: PolicySpec, s: State, c: Answers) {
    && c.getPolicy && !Consults(p, s.status) && DetermineState(s.status) == At(RolloutProgressing)
    && c.rollout == Read(Some(s.generation), Healthy) && c.writeStatus
  }

  predicate Prepared(st: Status) {
    Has(st.conditions, RevisionPrepared)
  }

  predicate Progressing(st: Status) {
    Has(st.conditions, RolloutProgressing)
  }

  /** The last patch of production was to that revision. */
  predicate LastPatched(s: State, revision: string) {
    && |s.history.patches| > 0 && s.history.patches[|s.history.patches| - 1] == revision
    && ANNOTATION_REVISION in s.template.annotations && s.template.annotations[ANNOTATION_REVISION] == revision
  }

  predicate RolloutOk(p: PolicySpec, s: State) {
    var st := s.status;
    && !Has(st.conditions, RolledBack) && !Has(st.conditions, Validating) && !Has(st.conditions, CanaryProvisioning)
    && 0 <= st.failures <= Threshold(p)
    && (Has(st.conditions, CircuitBreakerTripped) <==> Tripped(st))
    && (Tripped(st) <==> st.failures == Threshold(p))
    && (st.desired == "" ==> !Progressing(st))
    && (st.desired != "" ==> Prepared(st) || Progressing(st))
    && (st.desired != "" && Progressing(st) ==> (s.history.cyclePatched <==> !Prepared(st)))
    && (st.desired != "" && s.history.cyclePatched ==> LastPatched(s, st.desired))
  }

  lemma ConsultKeepsRollout(p: PolicySpec, s: State, c: Answers)
    requires RolloutOk(p, s) && Consults(p, s.status)
    ensures RolloutOk(p, Consult(p, s, c))
  {
    hide Set, Remove, Materialized, FirstTrue;
  }

  lemma StepKeepsRollout(p: PolicySpec, s: State, c: Answers)
    requires IsRollout(p) && RolloutOk(p, s)
    ensures RolloutOk(p, Step(p, s, c))
  {
    hide Set, Remove, Consult, CleanedUp, Validate, ProvisionCanary, Collected, RewriteSpec, BindingOf, SecretOf,
        Threshold;
    if c.getPolicy && Consults(p, s.status) {
      ConsultKeepsRollout(p, s, c);
    }
  }

  lemma {:induction false} RunKeepsRollout(p: PolicySpec, s: State, cs: seq<Answers>)
    requires IsRollout(p) && RolloutOk(p, s)
    ensures RolloutOk(p, Run(p, s, cs))
    decreases |cs|
  {
    if |cs| > 0 {
      StepKeepsRollout(p, s, cs[0]);
      RunKeepsRollout(p, Step(p, s, cs[0]), cs[1..]);
    }
  }

  /**
    In any run, CurrentRevision changes only by a finalization, to the desired revision; and
    production was patched to that revision in the same cycle exactly when the RevisionPrepared
    condition is gone.
   */
  lemma FinalizationIsPatchedIff(p: PolicySpec, s: State, cs: seq<Answers>, c: Answers)
    requires IsRollout(p) && Initial(p, s)
    ensures var s1 := Run(p, s, cs); var s2 := Step(p, s1, c);
      && (s2.status.current != s1.status.current ==> Finalizes(p, s1, c))
      && (Finalizes(p, s1, c) ==>
        && s2.status.current == s1.status.desired && s2.status.desired == "" && s2.status.failures == 0
        && (s1.history.cyclePatched <==> !Prepared(s1.status))
        && (!Prepared(s1.status) ==> LastPatched(s1, s1.status.desired)))
  {
    RunKeepsRollout(p, s, cs);
    CurrentMoves(p, Run(p, s, cs), c);
  }

  lemma CurrentMoves(p: PolicySpec, s: State, c: Answers)
    requires IsRollout(p) && RolloutOk(p, s)
    ensures var s' := Step(p, s, c);
      && (s'.status.current != s.status.current ==> Finalizes(p, s, c))
      && (Finalizes(p, s, c) ==> s'.status.current == s.status.desired && s'.status.desired == "" && s'.status.failures == 0)
  {
    hide Set, Remove, Consult, CleanedUp, Validate, ProvisionCanary, Collected, RewriteSpec, BindingOf, SecretOf,
        Threshold, LastPatched;
    ConsultStatus(p, s, c);
  }

  // ---------------------------------------------------------------- runs in which the breaker stays closed

  predicate NeverTrips(p: PolicySpec, s: State, cs: seq<Answers>)
    decreases |cs|
  {
    !Tripped(s.status) && (|cs| == 0 || NeverTrips(p, Step(p, s, cs[0]), cs[1..]))
  }

  /** One of the two phases, never both. */
  predicate PhasesApart(st: Status) {
    Progressing(st) ==> st.desired != "" && !Prepared(st)
  }

  lemma StepKeepsApart(p: PolicySpec, s: State, c: Answers)
    requires IsRollout(p) && RolloutOk(p, s) && PhasesApart(s.status) && !Tripped(s.status)
    ensures PhasesApart(Step(p, s, c).status)
  {
    hide Set, Remove, Consult, CleanedUp, Validate, ProvisionCanary, Collected, RewriteSpec, BindingOf, SecretOf,
        LastPatched;
    ConsultStatusMoves(p, s, c);
  }

  lemma {:induction false} RunKeepsApart(p: PolicySpec, s: State, cs: seq<Answers>)
    requires IsRollout(p) && RolloutOk(p, s) && PhasesApart(s.status) && NeverTrips(p, s, cs)
    ensures PhasesApart(Run(p, s, cs).status)
    decreases |cs|
  {
    if |cs| > 0 {
      StepKeepsApart(p, s, cs[0]);
      StepKeepsRollout(p, s, cs[0]);
      RunKeepsApart(p, Step(p, s, cs[0]), cs[1..]);
    }
  }

  /** If the breaker never trips, only a revision that production was patched to becomes current. */
  lemma UntrippedFinalizationIsPatched(p: PolicySpec, s: State, cs: seq<Answers>, c: Answers)
    requires IsRollout(p) && Initial(p, s) && NeverTrips(p, s, cs)
    requires Step(p, Run(p, s, cs), c).status.current != Run(p, s, cs).status.current
    ensures var s1 := Run(p, s, cs);
      && Step(p, s1, c).status.current == s1.status.desired && LastPatched(s1, s1.status.desired)
      && c.rollout == Read(Some(s1.generation), Healthy)
  {
    FinalizationIsPatchedIff(p, s, cs, c);
    RunKeepsApart(p, s, cs);
    RunKeepsRollout(p, s, cs);
  }

  // ---------------------------------------------------------------- the run that records an unpatched revision

  function Seeing(h: Revision, answer: RolloutAnswer): Answers {
    Smooth(h).(rollout := answer)
  }

  function Times(n: nat, c: Answers): seq<Answers> {
    if n == 0 then [] else [c] + Times(n - 1, c)
  }

  /** Waiting for a Rollout patched to the desired revision. */
  predicate Awaiting(p: PolicySpec, s: State) {
    && RolloutOk(p, s) && s.status.desired != "" && Progressing(s.status) && !Prepared(s.status)
  }

  lemma TimesStep(p: PolicySpec, s: State, n: nat, c: Answers)
    requires n > 0
    ensures Run(p, s, Times(n, c)) == Run(p, Step(p, s, c), Times(n - 1, c))
  {
    hide Step;
    assert Times(n, c)[0] == c && Times(n, c)[1..] == Times(n - 1, c);
  }

  /** One degraded report of a patched Rollout whose breaker is still closed. */
  lemma DegradedStep(p: PolicySpec, s: State, h: Revision)
    requires IsRollout(p) && Awaiting(p, s) && s.status.failures < Threshold(p)
    ensures var s' := Step(p, s, Seeing(h, Read(Some(s.generation), Degraded)));
      && Awaiting(p, s') && s' == s.(status := s'.status)
      && s'.status.failures == s.status.failures + 1
      && s'.status.current == s.status.current && s'.status.desired == s.status.desired
  {
    hide Set, Remove, Consult, Provision, Validate, Collected, LastPatched, Threshold;
    var c := Seeing(h, Read(Some(s.generation), Degraded));
    assert Step(p, s, c) == AwaitRollout(p, s, c);
    StepKeepsRollout(p, s, c);
  }

  lemma {:induction false} DegradedUntilTripped(p: PolicySpec, s: State, h: Revision, n: nat)
    requires IsRollout(p) && Awaiting(p, s) && n == Threshold(p) - s.status.failures
    ensures var s' := Run(p, s, Times(n, Seeing(h, Read(Some(s.generation), Degraded))));
      && Awaiting(p, s') && Tripped(s'.status)
      && s' == s.(status := s'.status) && s'.status.current == s.status.current && s'.status.desired == s.status.desired
    decreases n
  {
    hide Step, Set, Remove, LastPatched, Threshold;
    if n > 0 {
      var c := Seeing(h, Read(Some(s.generation), Degraded));
      var s1 := Step(p, s, c);
      DegradedStep(p, s, h);
      TimesStep(p, s, n, c);
      DegradedUntilTripped(p, s1, h, n - 1);
    }
  }

  /** Patched to r1 and then halted by a Rollout that stays degraded. */
  lemma PatchThenTrip(p: PolicySpec, s: State, r1: Revision) returns (cs: seq<Answers>, s': State)
    requires IsRollout(p) && Initial(p, s)
    ensures s' == Run(p, s, cs) && RolloutOk(p, s') && Tripped(s'.status)
    ensures s'.status.current == "" && s'.status.desired == r1 && Progressing(s'.status)
    ensures s'.history.patches == [r1]
    ensures s'.template == Promoted(BindingOf(p), "", r1, SecretOf(p, r1), s.template)
    ensures s'.secrets == Materialized(p, s.secrets, r1)
  {
    hide Run, Step, RolloutOk, Times, Promoted, BindingOf, SecretOf, Materialized, Threshold;
    var c := Seeing(r1, NotRead);
    PatchFirst(p, s, r1);
    var s2 := Run(p, s, [c, c]);
    var d := Seeing(r1, Read(Some(s2.generation), Degraded));
    DegradedUntilTripped(p, s2, r1, Threshold(p));
    cs := [c, c] + Times(Threshold(p), d);
    RunConcat(p, s, [c, c], Times(Threshold(p), d));
    s' := Run(p, s, cs);
  }

  /** Prepared for r1, before the Rollout is patched. */
  predicate ReadyToPatch(p: PolicySpec, s: State, r1: Revision, s1: State) {
    && RolloutOk(p, s1) && Prepared(s1.status) && !Progressing(s1.status) && !Tripped(s1.status)
    && s1.status.failures == 0 && s1.status.current == "" && s1.status.desired == r1
    && s1.history.patches == [] && s1.template == s.template && s1.secrets == Materialized(p, s.secrets, r1)
  }

  lemma PrepareFirst(p: PolicySpec, s: State, r1: Revision)
    requires IsRollout(p) && Initial(p, s)
    ensures ReadyToPatch(p, s, r1, Step(p, s, Seeing(r1, NotRead)))
  {
    hide SecretOf, Materialized, Advance, Set, Remove, Threshold, OwnRevisions;
    StepKeepsRollout(p, s, Seeing(r1, NotRead));
  }

  lemma PatchReady(p: PolicySpec, s: State, r1: Revision, s1: State)
    requires IsRollout(p) && ReadyToPatch(p, s, r1, s1)
    ensures var s2 := Step(p, s1, Seeing(r1, NotRead));
      && Awaiting(p, s2) && s2.status.failures == 0 && s2.status.current == "" && s2.status.desired == r1
      && s2.history.patches == [r1]
      && s2.template == Promoted(BindingOf(p), "", r1, SecretOf(p, r1), s.template)
      && s2.secrets == Materialized(p, s.secrets, r1)
  {
    hide Promoted, BindingOf, SecretOf, Materialized, Consult, Validate, AwaitRollout, CleanedUp, LastPatched, Set,
        Remove, Threshold;
    assert Step(p, s1, Seeing(r1, NotRead)) == ProvisionRollout(p, s1, Seeing(r1, NotRead));
    StepKeepsRollout(p, s1, Seeing(r1, NotRead));
  }

  /** The first cycle: r1 is prepared, and production is patched to it. */
  lemma PatchFirst(p: PolicySpec, s: State, r1: Revision)
    requires IsRollout(p) && Initial(p, s)
    ensures var c := Seeing(r1, NotRead); var s2 := Run(p, s, [c, c]);
      && Awaiting(p, s2) && s2.status.failures == 0 && s2.status.current == "" && s2.status.desired == r1
      && s2.history.patches == [r1]
      && s2.template == Promoted(BindingOf(p), "", r1, SecretOf(p, r1), s.template)
      && s2.secrets == Materialized(p, s.secrets, r1)
  {
    hide Step, Run, Promoted, BindingOf, SecretOf, Materialized, ReadyToPatch, Awaiting, Initial, IsRollout;
    var c := Seeing(r1, NotRead);
    RunNothing(p, s);
    RunSnoc(p, s, [], c);
    RunSnoc(p, s, [c], c);
    PrepareFirst(p, s, r1);
    PatchReady(p, s, r1, Step(p, s, c));
    assert [] + [c] == [c] && [c] + [c] == [c, c];
  }

  /** A fresh revision after the trip, and then a Healthy report about the old one. */
  lemma RecoverStale(p: PolicySpec, t: State, r1: Revision, r2: Revision) returns (c: Answers, d: Answers)
    requires IsRollout(p) && RolloutOk(p, t) && Tripped(t.status) && Progressing(t.status) && r1 != r2
    requires t.status.current == "" && t.status.desired == r1
    requires SecretOf(p, r1) in t.secrets && t.secrets[SecretOf(p, r1)] == Labels(p.name, p.target, r1)
    ensures var t2 := Step(p, Step(p, t, c), d);
      && t2.status.current == r2 && t2.status.desired == ""
      && t2.history.patches == t.history.patches && t2.template == t.template
      && SecretOf(p, r1) !in t2.secrets
  {
    c := Seeing(r2, NotRead);
    var t1 := Step(p, t, c);
    assert t1 == BeginCycle(t.(secrets := Materialized(p, t.secrets, r2)), r2, c);
    StepKeepsRollout(p, t, c);
    d := Seeing(r2, Read(Some(t1.generation), Healthy));
    SecretOfInjective(p, r1, r2);
    assert t1.secrets[SecretOf(p, r1)] == Labels(p.name, p.target, r1);
    assert Finalizes(p, t1, d);
    assert Step(p, t1, d) == AwaitRollout(p, t1, d);
  }

  /**
    From every initial state whose template the first patch touches there is a run that records a
    revision production was never patched to, and collects the secret production mounts: the
    breaker trips, a fresh revision starts a cycle that keeps the old RolloutProgressing condition,
    and the Rollout recovers.
   */
  lemma StaleConditionRecordsUnpatched(p: PolicySpec, s: State, r1: Revision, r2: Revision) returns (cs: seq<Answers>)
    requires IsRollout(p) && Initial(p, s) && r1 != r2
    requires SecretOf(p, r1) !in s.secrets
    requires SecretOf(p, r1) in Refs(Promoted(BindingOf(p), "", r1, SecretOf(p, r1), s.template))
    ensures var s' := Run(p, s, cs);
      && s'.status.current == r2 && s'.status.desired == ""
      && s'.history.patches == [r1]
      && SecretOf(p, r1) in OwnRevisions(p, s'.template) && SecretOf(p, r1) !in s'.secrets
  {
    var ds, t := PatchThenTrip(p, s, r1);
    var c, d := RecoverStale(p, t, r1, r2);
    cs := ds + [c] + [d];
    RunSnoc(p, s, ds, c);
    RunSnoc(p, s, ds + [c], d);
    assert Own(BindingOf(p), Managed(p), SecretOf(p, r1));
  }

  /** A template that names no revision and that every binding has something to rewrite in. */
  function Mounting(b: Binding): Template {
    var volume := Volume(if b.volumeName != "" then b.volumeName else b.objectName, Some(SecretVolume("", "")), "");
    Template(map[], map[], PodSpec([volume], [Container(b.containerName, [], [], "")], [], ""))
  }

  lemma MountingHasNoRefs(b: Binding, managed: string)
    ensures OwnRefs(b, managed, Mounting(b)) == {}
  {
    var t := Mounting(b);
    var c := t.spec.containers[0];
    assert VolumeRefs(t.spec.volumes) == {""} by {
      assert t.spec.volumes[0].secret.value.secretName == "";
    }
    assert EnvRefs(c.env) == {} && EnvFromRefs(c.envFrom) == {};
    assert forall n :: n in ContainerRefs(t.spec.containers) ==> n in EnvRefs(c.env) + EnvFromRefs(c.envFrom);
    assert ContainerRefs(t.spec.initContainers) == {};
    assert !Own(b, managed, "");
  }

  lemma MountingIsTouched(b: Binding, revision: string, secretName: string)
    ensures secretName in Refs(Promoted(b, "", revision, secretName, Mounting(b)))
  {
    var t := Promoted(b, "", revision, secretName, Mounting(b));
    if b.envName == "" || b.volumeName != "" {
      assert t.spec.volumes[0].secret.value.secretName == secretName;
      assert secretName in VolumeRefs(t.spec.volumes);
    } else {
      var c := t.spec.containers[0];
      assert c.env == [BoundEnv(b, secretName)];
      assert EnvRef(c.env[0]).name == secretName && secretName in EnvRefs(c.env);
      assert secretName in EnvRefs(t.spec.containers[0].env) + EnvFromRefs(t.spec.containers[0].envFrom);
      assert secretName in ContainerRefs(t.spec.containers);
    }
  }

  /** Such a state and run exist for every Rollout policy, whatever it binds and whatever its threshold. */
  lemma EveryRolloutPolicyCanBeStale(p: PolicySpec, r1: Revision, r2: Revision) returns (s: State, cs: seq<Answers>)
    requires IsRollout(p) && r1 != r2
    ensures Initial(p, s)
    ensures var s' := Run(p, s, cs);
      && s'.status.current == r2 && s'.status.desired == ""
      && s'.history.patches == [r1]
      && SecretOf(p, r1) in OwnRevisions(p, s'.template) && SecretOf(p, r1) !in s'.secrets
  {
    hide Promoted, Mounting, Run, BindingOf, SecretOf, Managed;
    var b := BindingOf(p);
    s := StartWith(Mounting(b));
    MountingHasNoRefs(b, Managed(p));
    MountingIsTouched(b, r1, SecretOf(p, r1));
    cs := StaleConditionRecordsUnpatched(p, s, r1, r2);
  }
}
