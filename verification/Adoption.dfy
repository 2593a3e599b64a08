/**
  What the rewriting adopts, in terms of names: which references of a workload come to the new
  secret, which pods a selector finds, and what stays of production over whole runs.
 */
module Adoption {
  import opened Options
  import opened Naming
  import opened PodTemplate
  import opened TemplateLaws
  import opened Conditions
  import opened Rotation
  import opened Safety
  import opened Progress
  import opened RotationRuns
  import opened CanaryRuns
  import opened ProbeJob

  // ---------------------------------------------------------------- which names are adopted

  /** The names that mean the object itself, the target's copy of it, or a revision of that copy. */
  predicate NamesObject(target: string, objectName: string, name: string) {
    name in {objectName, target + "-" + objectName} || target + "-" + objectName + "-rev-" <= name
  }

  /** The old form of a revision's name, which had no object in it. */
  predicate NamesOldForm(target: string, name: string) {
    target + "-rev-" <= name
  }

  /** The old form, of the revision in use. */
  predicate NamesOldCurrent(target: string, current: string, name: string) {
    current != "" && name == target + "-rev-" + current
  }

  predicate VolumeAdopted(target: string, objectName: string, volume: string, name: string) {
    || NamesObject(target, objectName, name) || NamesOldForm(target, name)
    || name in {target + "-" + objectName + "-secret", target + "-secret"}
    || volume in {objectName, objectName + "-volume"}
  }

  predicate VariableAdopted(rule: Rule, target: string, objectName: string, current: string, name: string, key: string) {
    || NamesObject(target, objectName, name)
    || (rule == Promotion && NamesOldForm(target, name))
    || (rule == Canary && (NamesOldCurrent(target, current, name) || key == objectName))
  }

  predicate ImportAdopted(target: string, objectName: string, current: string, name: string) {
    NamesObject(target, objectName, name) || NamesOldCurrent(target, current, name)
  }

  lemma PrefixAndCurrent(prefix: string, current: string, name: string)
    ensures NamesRevision(name, prefix, current) ==> prefix <= name
  {
  }

  lemma AdoptedByName(rule: Rule, b: Binding, current: string, v: Volume, ref: KeySelector)
    ensures v.secret.Some? ==>
      (MatchesVolume(b, v) <==> VolumeAdopted(b.target, b.objectName, v.name, v.secret.value.secretName))
    ensures MatchesEnv(rule, b, current, ref) <==> VariableAdopted(rule, b.target, b.objectName, current, ref.name, ref.key)
    ensures MatchesEnvFrom(b, current, ref.name) <==> ImportAdopted(b.target, b.objectName, current, ref.name)
  {
    PrefixAndCurrent(b.target + "-" + b.objectName + "-rev-", current, ref.name);
  }

  // ---------------------------------------------------------------- what becomes of each place

  /** The container is one the policy means: the named one, or any if none is named. */
  predicate Meant(containerName: string, c: Container) {
    containerName in {"", c.name}
  }

  function Repointed(e: EnvVar, secretName: string): EnvVar {
    match e
    case EnvVar(n, v, Some(EnvSource(Some(KeySelector(_, key, optional)), others))) =>
      EnvVar(n, v, Some(EnvSource(Some(KeySelector(secretName, key, optional)), others)))
    case _ => e
  }

  /** The variable has the secret, or is as before, depending on whether its reference is adopted. */
  predicate VariableFollows(rule: Rule, b: Binding, current: string, secretName: string, before: EnvVar, after: EnvVar) {
    match before.from
    case Some(EnvSource(Some(KeySelector(name, key, _)), _)) =>
      if VariableAdopted(rule, b.target, b.objectName, current, name, key)
      then after == Repointed(before, secretName) && after.from.value.secretKey.value.name == secretName
      else after == before
    case _ => after == before
  }

  predicate ImportFollows(b: Binding, current: string, secretName: string, before: EnvFrom, after: EnvFrom) {
    match before.secret
    case Some(SecretRef(name, optional)) =>
      if ImportAdopted(b.target, b.objectName, current, name)
      then after == EnvFrom(before.prefix, Some(SecretRef(secretName, optional)), before.others)
      else after == before
    case None => after == before
  }

  /** The variable that an explicit binding gives to a container. */
  function Bound(b: Binding, secretName: string): EnvVar {
    EnvVar(b.envName, "", Some(EnvSource(Some(KeySelector(secretName, b.objectName, None)), "")))
  }

  /** With a bound variable the container sees that variable from the secret and all others as before. */
  ghost predicate ContainerIsBound(b: Binding, secretName: string, before: Container, after: Container) {
    && after.envFrom == before.envFrom
    && LastEnv(after.env, b.envName) == Some(Bound(b, secretName))
    && (forall name :: name != b.envName ==> LastEnv(after.env, name) == LastEnv(before.env, name))
    && |before.env| <= |after.env|
    && forall j :: 0 <= j < |before.env| ==>
        after.env[j] == if before.env[j].name == b.envName then Bound(b, secretName) else before.env[j]
  }

  ghost predicate ContainerFollows(rule: Rule, b: Binding, current: string, secretName: string, before: Container,
                                   after: Container) {
    && after.name == before.name && after.others == before.others
    && if !Meant(b.containerName, before) then after == before
       else if b.envName != "" then ContainerIsBound(b, secretName, before, after)
       else
         && |after.env| == |before.env| && |after.envFrom| == |before.envFrom|
         && (forall j :: 0 <= j < |before.env| ==>
               VariableFollows(rule, b, current, secretName, before.env[j], after.env[j]))
         && (forall j :: 0 <= j < |before.envFrom| ==>
               ImportFollows(b, current, secretName, before.envFrom[j], after.envFrom[j]))
  }

  /** A bound volume takes the secret whatever it held; with nothing bound, an adopted one does. */
  predicate VolumeFollows(b: Binding, secretName: string, before: Volume, after: Volume) {
    && after.name == before.name && after.others == before.others
    && match before.secret
       case Some(SecretVolume(name, others)) =>
         after.secret ==
           if (if b.volumeName != "" then before.name == b.volumeName
               else b.envName == "" && VolumeAdopted(b.target, b.objectName, before.name, name))
           then Some(SecretVolume(secretName, others)) else before.secret
       case None =>
         after.secret == if b.volumeName != "" && before.name == b.volumeName then Some(SecretVolume(secretName, "")) else None
  }

  ghost predicate ContainersFollow(rule: Rule, b: Binding, current: string, secretName: string, before: seq<Container>,
                                   after: seq<Container>) {
    && |after| == |before|
    && forall i :: 0 <= i < |before| ==> ContainerFollows(rule, b, current, secretName, before[i], after[i])
  }

  ghost predicate SpecFollows(rule: Rule, b: Binding, current: string, secretName: string, before: PodSpec, after: PodSpec) {
    && after.others == before.others && |after.volumes| == |before.volumes|
    && (forall i :: 0 <= i < |before.volumes| ==> VolumeFollows(b, secretName, before.volumes[i], after.volumes[i]))
    && ContainersFollow(rule, b, current, secretName, before.containers, after.containers)
    && ContainersFollow(rule, b, current, secretName, before.initContainers, after.initContainers)
  }

  lemma VolumeIsAdopted(b: Binding, secretName: string, v: Volume)
    ensures VolumeFollows(b, secretName, v, RewriteVolume(b, secretName, v))
  {
    hide MatchesVolume, VolumeAdopted, MatchesEnv, MatchesEnvFrom;
    AdoptedByName(Promotion, b, "", v, KeySelector("", "", None));
  }

  lemma VariableIsAdopted(rule: Rule, b: Binding, current: string, secretName: string, e: EnvVar)
    requires b.envName == ""
    ensures VariableFollows(rule, b, current, secretName, e, RewriteEnvVar(rule, b, current, secretName, e))
  {
    hide MatchesVolume, VariableAdopted, MatchesEnv, MatchesEnvFrom;
    if RefersToSecret(e) {
      AdoptedByName(rule, b, current, Volume("", None, ""), EnvRef(e));
    }
  }

  lemma ImportIsAdopted(b: Binding, current: string, secretName: string, f: EnvFrom)
    requires b.envName == ""
    ensures ImportFollows(b, current, secretName, f, RewriteEnvFromItem(b, current, secretName, f))
  {
    hide MatchesVolume, ImportAdopted, MatchesEnv, MatchesEnvFrom;
    if f.secret.Some? {
      AdoptedByName(Promotion, b, current, Volume("", None, ""), KeySelector(f.secret.value.name, "", None));
    }
  }

  lemma ContainerIsAdopted(rule: Rule, b: Binding, current: string, secretName: string, c: Container)
    ensures ContainerFollows(rule, b, current, secretName, c, RewriteContainer(rule, b, current, secretName, c))
  {
    hide RewriteEnvVar, RewriteEnvFromItem, VariableFollows, ImportFollows, LastEnv;
    var after := RewriteContainer(rule, b, current, secretName, c);
    if Selected(b, c.name) {
      if b.envName != "" {
        BoundContainer(rule, b, current, secretName, c);
      } else {
        forall j | 0 <= j < |c.env| ensures VariableFollows(rule, b, current, secretName, c.env[j], after.env[j]) {
          VariableIsAdopted(rule, b, current, secretName, c.env[j]);
        }
        forall j | 0 <= j < |c.envFrom| ensures ImportFollows(b, current, secretName, c.envFrom[j], after.envFrom[j]) {
          ImportIsAdopted(b, current, secretName, c.envFrom[j]);
        }
      }
    }
  }

  lemma BoundContainer(rule: Rule, b: Binding, current: string, secretName: string, c: Container)
    requires Selected(b, c.name) && b.envName != ""
    ensures ContainerIsBound(b, secretName, c, RewriteContainer(rule, b, current, secretName, c))
  {
    hide LastEnv, Binds;
    var after := RewriteContainer(rule, b, current, secretName, c);
    ExplicitBindingTakesEffect(rule, b, current, secretName, c.env, b.envName);
    forall name | name != b.envName ensures LastEnv(after.env, name) == LastEnv(c.env, name) {
      ExplicitBindingTakesEffect(rule, b, current, secretName, c.env, name);
    }
    assert after.envFrom == c.envFrom;
  }

  /**
    What a rewriting does to each place of a pod spec, in names: a place of a selected container
    comes to the new secret exactly if it is the bound one, or nothing is bound and its name, key or
    volume name is among those the policy adopts; everything else is as it was.
   */
  lemma RewritingAdopts(rule: Rule, b: Binding, current: string, secretName: string, spec: PodSpec)
    ensures SpecFollows(rule, b, current, secretName, spec, RewriteSpec(rule, b, current, secretName, spec))
  {
    hide RewriteVolume, VolumeFollows, RewriteContainer, ContainerFollows;
    forall i | 0 <= i < |spec.volumes|
      ensures VolumeFollows(b, secretName, spec.volumes[i], RewriteVolume(b, secretName, spec.volumes[i]))
    {
      VolumeIsAdopted(b, secretName, spec.volumes[i]);
    }
    ContainersAreAdopted(rule, b, current, secretName, spec.containers);
    ContainersAreAdopted(rule, b, current, secretName, spec.initContainers);
  }

  lemma ContainersAreAdopted(rule: Rule, b: Binding, current: string, secretName: string, cs: seq<Container>)
    ensures ContainersFollow(rule, b, current, secretName, cs, RewriteContainers(rule, b, current, secretName, cs))
  {
    hide RewriteContainer, ContainerFollows;
    forall i | 0 <= i < |cs|
      ensures ContainerFollows(rule, b, current, secretName, cs[i], RewriteContainer(rule, b, current, secretName, cs[i]))
    {
      ContainerIsAdopted(rule, b, current, secretName, cs[i]);
    }
  }

  // ---------------------------------------------------------------- over runs

  /** What the policy binds, field by field; without a target reference it binds nothing. */
  lemma PolicyBinds(p: PolicySpec)
    ensures match p.targetRef
      case Some(TargetRef(volume, variable, container)) =>
        BindingOf(p) == Binding(p.target, p.source.vaultRef.objectName, volume, variable, container)
      case None => BindingOf(p) == Binding(p.target, p.source.vaultRef.objectName, "", "", "")
  {
  }

  /** The secret of a revision, by its full name. */
  function RevisionSecret(p: PolicySpec, revision: string): string {
    p.target + "-" + Managed(p) + "-rev-" + revision
  }

  /**
    In any run of a fitting policy, of whatever kind and wherever calls fail: once production was
    patched, every place of the original template that the policy adopts is on the secret of the last
    patched revision, and everything else is as it was.
   */
  lemma AdoptedPlacesFollow(p: PolicySpec, s: State, cs: seq<Answers>)
    requires Initial(p, s) && Steady(BindingOf(p), Managed(p)) && Untangled(BindingOf(p), s.template)
    requires Run(p, s, cs).history.patches != []
    ensures var s' := Run(p, s, cs); var r := s'.history.patches[|s'.history.patches| - 1];
      exists current :: InUse(current) &&
        SpecFollows(Promotion, BindingOf(p), current, RevisionSecret(p, r), s.template.spec, s'.template.spec)
  {
    hide Run, Steady, Untangled, SpecFollows, RewriteSpec, BindingOf, Managed, Initial;
    ProductionIsRotatedOnce(p, s, cs);
    var s' := Run(p, s, cs);
    var r := s'.history.patches[|s'.history.patches| - 1];
    var current :| InUse(current) && s'.template == OneTurn(p, current, r, s.template);
    RewritingAdopts(Promotion, BindingOf(p), current, RevisionSecret(p, r), s.template.spec);
    assert SecretOf(p, r) == RevisionSecret(p, r);
  }

  /**
    In particular a container variable that was written with the name of the object itself has, once
    production was patched, the secret of the last patched revision.
   */
  lemma ObjectVariableFollows(p: PolicySpec, s: State, cs: seq<Answers>, i: nat, j: nat)
    requires Initial(p, s) && Steady(BindingOf(p), Managed(p)) && Untangled(BindingOf(p), s.template)
    requires BindingOf(p).envName == "" && Run(p, s, cs).history.patches != []
    requires i < |s.template.spec.containers| && BindingOf(p).containerName == ""
    requires j < |s.template.spec.containers[i].env| && RefersToSecret(s.template.spec.containers[i].env[j])
    requires EnvRef(s.template.spec.containers[i].env[j]).name == p.source.vaultRef.objectName
    ensures var s' := Run(p, s, cs); var r := s'.history.patches[|s'.history.patches| - 1];
      && i < |s'.template.spec.containers| && j < |s'.template.spec.containers[i].env|
      && s'.template.spec.containers[i].env[j] == Repointed(s.template.spec.containers[i].env[j], RevisionSecret(p, r))
  {
    hide Run, Steady, Untangled, Managed, Initial, RevisionSecret;
    AdoptedPlacesFollow(p, s, cs);
    var s' := Run(p, s, cs);
    var r := s'.history.patches[|s'.history.patches| - 1];
    var current :| InUse(current) &&
      SpecFollows(Promotion, BindingOf(p), current, RevisionSecret(p, r), s.template.spec, s'.template.spec);
    var before, after := s.template.spec.containers[i], s'.template.spec.containers[i];
    assert ContainerFollows(Promotion, BindingOf(p), current, RevisionSecret(p, r), before, after);
    assert VariableFollows(Promotion, BindingOf(p), current, RevisionSecret(p, r), before.env[j], after.env[j]);
  }

  // ---------------------------------------------------------------- who is selected

  /** A label selector: every key it names has the value it names. */
  predicate Selects(selector: map<string, string>, labels: map<string, string>) {
    forall k :: k in selector ==> k in labels && labels[k] == selector[k]
  }

  /** Production is served as ever: its labels and all annotations but one stay, and that one tells the last patch. */
  predicate ServedAs(t: Template, s: State) {
    var key, n := "dso.quantumsys.dev/revision", |s.history.patches|;
    && s.template.labels == t.labels && s.template.spec.others == t.spec.others
    && s.template.annotations - {key} == t.annotations - {key}
    && (n > 0 ==> key in s.template.annotations && s.template.annotations[key] == s.history.patches[n - 1])
    && (n == 0 ==> s.template == t)
  }

  lemma StepKeepsServed(p: PolicySpec, t: Template, s: State, c: Answers)
    requires ServedAs(t, s)
    ensures ServedAs(t, Step(p, s, c))
  {
    hide Step, BindingOf, SecretOf, RewriteVolumes, RewriteContainers;
    StepPatches(p, s, c);
  }

  lemma {:induction false} RunKeepsServed(p: PolicySpec, t: Template, s: State, cs: seq<Answers>)
    requires ServedAs(t, s)
    ensures ServedAs(t, Run(p, s, cs))
    decreases |cs|
  {
    hide Step, ServedAs;
    if |cs| > 0 {
      StepKeepsServed(p, t, s, cs[0]);
      RunKeepsServed(p, t, Step(p, s, cs[0]), cs[1..]);
    }
  }

  /**
    In any run, of whatever kind of workload and wherever calls fail, every Service that found
    production still finds it; no other annotation changes, and the revision annotation tells the
    last patch.
   */
  lemma ProductionStaysServed(p: PolicySpec, s: State, cs: seq<Answers>, selector: map<string, string>)
    requires Initial(p, s)
    ensures ServedAs(s.template, Run(p, s, cs))
    ensures Selects(selector, Run(p, s, cs).template.labels) <==> Selects(selector, s.template.labels)
  {
    hide Run, OwnRevisions, LabelsOk;
    RunKeepsServed(p, s.template, s, cs);
  }

  /** A standing canary bears the two canary labels and no other. */
  predicate CanaryLabelled(p: PolicySpec, s: State) {
    s.canary.Some? ==>
      s.canary.value.labels == map["dso.quantumsys.dev/canary" := "true", "dso.quantumsys.dev/target" := p.target]
  }

  lemma ProvisionLabels(p: PolicySpec, s: State, c: Answers)
    requires CanaryLabelled(p, s)
    ensures CanaryLabelled(p, Provision(p, s, c))
  {
    hide RewriteSpec, Promoted, Set, Remove, SecretOf, BindingOf;
    BindingTarget(p);
  }

  lemma OtherPartsKeepCanary(p: PolicySpec, s: State, c: Answers)
    ensures Consult(p, s, c).canary in {s.canary, None} && AwaitRollout(p, s, c).canary == s.canary
  {
    hide Set, Remove, Collected, Threshold, Materialized, Halted, Fresh, IsTrue;
  }

  lemma ValidationKeepsCanary(p: PolicySpec, s: State, c: Answers)
    ensures Validate(p, s, c).canary in {s.canary, None}
  {
    hide Set, Remove, RunProbes, Promoted, BindingOf, SecretOf, Collected, ResolveKind, Threshold;
  }

  lemma StepKeepsLabels(p: PolicySpec, s: State, c: Answers)
    requires CanaryLabelled(p, s)
    ensures CanaryLabelled(p, Step(p, s, c))
  {
    hide Consult, Provision, Validate, AwaitRollout;
    ProvisionLabels(p, s, c);
    OtherPartsKeepCanary(p, s, c);
    ValidationKeepsCanary(p, s, c);
  }

  lemma {:induction false} RunKeepsLabels(p: PolicySpec, s: State, cs: seq<Answers>)
    requires CanaryLabelled(p, s)
    ensures CanaryLabelled(p, Run(p, s, cs))
    decreases |cs|
  {
    hide Step, CanaryLabelled;
    if |cs| > 0 {
      StepKeepsLabels(p, s, cs[0]);
      RunKeepsLabels(p, Step(p, s, cs[0]), cs[1..]);
    }
  }

  /**
    In any run a standing canary is found by exactly the selectors that ask for nothing but that it
    is a canary, and of this target: by the probes' and the network policy's, and by no Service that
    asks for any other label, whatever labels production has.
   */
  lemma CanaryIsFoundIff(p: PolicySpec, s: State, cs: seq<Answers>, selector: map<string, string>)
    requires Initial(p, s) && Run(p, s, cs).canary.Some?
    ensures Selects(selector, Run(p, s, cs).canary.value.labels) <==>
      && selector.Keys <= {"dso.quantumsys.dev/canary", "dso.quantumsys.dev/target"}
      && ("dso.quantumsys.dev/canary" in selector ==> selector["dso.quantumsys.dev/canary"] == "true")
      && ("dso.quantumsys.dev/target" in selector ==> selector["dso.quantumsys.dev/target"] == p.target)
  {
    hide Run, OwnRevisions, LabelsOk;
    RunKeepsLabels(p, s, cs);
    CanarySelectors(p.target, selector);
  }

  lemma CanarySelectors(target: string, selector: map<string, string>)
    ensures Selects(selector, map["dso.quantumsys.dev/canary" := "true", "dso.quantumsys.dev/target" := target]) <==>
      && selector.Keys <= {"dso.quantumsys.dev/canary", "dso.quantumsys.dev/target"}
      && ("dso.quantumsys.dev/canary" in selector ==> selector["dso.quantumsys.dev/canary"] == "true")
      && ("dso.quantumsys.dev/target" in selector ==> selector["dso.quantumsys.dev/target"] == target)
  {
    var canary, of := "dso.quantumsys.dev/canary", "dso.quantumsys.dev/target";
    assert canary != of by {
      assert |canary| == |of| && canary[19] == 'c' && of[19] == 't';
    }
    assert forall k :: k in selector.Keys ==> (k in {canary, of} <==> k == canary || k == of);
  }

  /** The step patches a Rollout directly, for a revision that is only prepared. */
  predicate PatchesRollout(p: PolicySpec, s: State, c: Answers) {
    && p.kind == "Rollout" && c.getPolicy && !Consults(p, s.status)
    && DetermineState(s.status) == At(RevisionPrepared) && c.fetchTarget && c.patch
  }

  lemma ProvisionPatchesIff(p: PolicySpec, s: State, c: Answers)
    ensures var s' := Provision(p, s, c);
      s'.history.patches ==
        if p.kind == "Rollout" && c.fetchTarget && c.patch then s.history.patches + [s.status.desired]
        else s.history.patches
  {
    hide Set, Remove, Promoted, CanaryOf, BindingOf, SecretOf;
  }

  /**
    Production is patched by a promotion, and a Rollout when it is prepared, and by no other step;
    each time to the desired revision.
   */
  lemma PatchesIff(p: PolicySpec, s: State, c: Answers)
    ensures Step(p, s, c).history.patches ==
      if Promotes(p, s, c) || PatchesRollout(p, s, c) then s.history.patches + [s.status.desired] else s.history.patches
  {
    hide Consult, Provision, Validate, AwaitRollout, CleanedUp, RunProbes;
    ConsultMoves(p, s, c);
    ProvisionPatchesIff(p, s, c);
    AwaitPatches(p, s, c);
    ValidateMoves(p, s, c);
    CleanupKeepsStatus(p, s, c);
  }

  predicate Counted(s: State, s': State) {
    s'.generation == if s'.template == s.template then s.generation else s.generation + 1
  }

  lemma PartsCount(p: PolicySpec, s: State, c: Answers)
    ensures Counted(s, Consult(p, s, c)) && Counted(s, AwaitRollout(p, s, c)) && Counted(s, CleanedUp(p, s, c))
  {
    hide Set, Remove, Collected, Materialized, Threshold, Halted, Fresh, IsTrue;
  }

  lemma ProvisionCounts(p: PolicySpec, s: State, c: Answers)
    ensures Counted(s, Provision(p, s, c))
  {
    hide Set, Remove, Promoted, CanaryOf, BindingOf, SecretOf, ResolveKind;
  }

  lemma ValidateCounts(p: PolicySpec, s: State, c: Answers)
    ensures Counted(s, Validate(p, s, c))
  {
    hide Set, Remove, RunProbes, Promoted, BindingOf, SecretOf, Collected, ResolveKind, Threshold;
  }

  /** Every change of the template makes a new generation, and nothing else does. */
  lemma GenerationCountsChanges(p: PolicySpec, s: State, c: Answers)
    ensures var s' := Step(p, s, c);
      s'.generation == if s'.template == s.template then s.generation else s.generation + 1
  {
    hide Consult, Provision, Validate, AwaitRollout, CleanedUp;
    PartsCount(p, s, c);
    ProvisionCounts(p, s, c);
    ValidateCounts(p, s, c);
  }

  /**
    In a run without failed canary deletions a standing canary is production's pod spec with every
    place that the canary adopts on the desired revision's secret, and says which revision that is.
   */
  lemma CanaryAdopts(p: PolicySpec, s: State, cs: seq<Answers>)
    requires !IsRollout(p) && Initial(p, s) && CanariesDeleted(cs) && Run(p, s, cs).canary.Some?
    ensures var s' := Run(p, s, cs); var canary := s'.canary.value;
      && SpecFollows(Canary, BindingOf(p), s'.status.current, RevisionSecret(p, s'.status.desired),
                     s'.template.spec, canary.spec)
      && canary.annotations == s'.template.annotations["dso.quantumsys.dev/revision" := s'.status.desired]
  {
    hide Run, SpecFollows, RewriteSpec, BindingOf, Managed, OwnRevisions, Tripped, LabelsOk;
    InitialStands(p, s);
    RunKeepsCanary(p, s, cs);
    var s' := Run(p, s, cs);
    RewritingAdopts(Canary, BindingOf(p), s'.status.current, RevisionSecret(p, s'.status.desired), s'.template.spec);
    assert SecretOf(p, s'.status.desired) == RevisionSecret(p, s'.status.desired);
  }

  // ---------------------------------------------------------------- the Job of a Job probe

  /** The container is told the secret's name in a variable of its own, and sees every other variable as before. */
  ghost predicate Told(secretName: string, before: Container, after: Container) {
    var key := "DSO_REVISION_SECRET_NAME";
    && after == before.(env := after.env)
    && (forall name :: name != key ==> LastEnv(after.env, name) == LastEnv(before.env, name))
    && (LastEnv(after.env, key) == Some(EnvVar(key, secretName, None)) <==>
        AtMostOnce(before.env, key) || LastEnv(before.env, key) == Some(EnvVar(key, secretName, None)))
    && |before.env| <= |after.env|
    && forall j :: 0 <= j < |before.env| && before.env[j].name != key ==> after.env[j] == before.env[j]
  }

  /** Pointed at the secret by the rules of a promotion, and then told its name. */
  ghost predicate PointedAndTold(b: Binding, current: string, secretName: string, before: Container, after: Container) {
    exists mid :: ContainerFollows(Promotion, b, current, secretName, before, mid) && Told(secretName, mid, after)
  }

  ghost predicate AllPointedAndTold(b: Binding, current: string, secretName: string, before: seq<Container>,
                                    after: seq<Container>) {
    && |after| == |before|
    && forall i :: 0 <= i < |before| ==> PointedAndTold(b, current, secretName, before[i], after[i])
  }

  lemma {:induction false} SetFirstKeepsOthers(env: seq<EnvVar>, key: string, value: string)
    ensures var told := SetFirst(env, key, value);
      && |env| <= |told|
      && forall j :: 0 <= j < |env| && env[j].name != key ==> told[j] == env[j]
  {
    if |env| > 0 && env[0].name != key {
      SetFirstKeepsOthers(env[1..], key, value);
    }
  }

  lemma ContainerIsTold(secretName: string, c: Container)
    ensures Told(secretName, c, c.(env := SetFirst(c.env, "DSO_REVISION_SECRET_NAME", secretName)))
  {
    hide SetFirst, LastEnv, AtMostOnce;
    var key := "DSO_REVISION_SECRET_NAME";
    SetFirstKeepsOthers(c.env, key, secretName);
    InjectionTakesEffect(c.env, key, secretName, key);
    forall name | name != key ensures LastEnv(SetFirst(c.env, key, secretName), name) == LastEnv(c.env, name) {
      InjectionTakesEffect(c.env, key, secretName, name);
    }
  }

  lemma ContainersAreTold(b: Binding, current: string, secretName: string, cs: seq<Container>)
    ensures AllPointedAndTold(b, current, secretName, cs,
      InjectInto(RewriteContainers(Promotion, b, current, secretName, cs), "DSO_REVISION_SECRET_NAME", secretName))
  {
    hide RewriteContainer, ContainerFollows, Told, SetFirst;
    var mids := RewriteContainers(Promotion, b, current, secretName, cs);
    var told := InjectInto(mids, "DSO_REVISION_SECRET_NAME", secretName);
    forall i | 0 <= i < |cs| ensures PointedAndTold(b, current, secretName, cs[i], told[i]) {
      ContainerIsAdopted(Promotion, b, current, secretName, cs[i]);
      ContainerIsTold(secretName, mids[i]);
    }
  }

  /**
    The Job of a Job probe is the user's template with every container and init container, whatever
    its name, pointed at the revision's secret by the rules of a promotion and told its name, the
    volumes likewise; it says whose it is and which revision it probes, and retries only if asked to.
   */
  lemma JobProbesTheRevision(policyName: string, b: Binding, current: string, desired: string, spec: JobTemplate,
                             secretName: string)
    ensures var job := BuiltJob(policyName, b, current, desired, spec, secretName);
      var any := Binding(b.target, b.objectName, b.volumeName, b.envName, "");
      && job.policy == policyName
      && job.template.labels == spec.template.labels
      && job.template.annotations == spec.template.annotations["dso.quantumsys.dev/revision" := desired]
      && job.template.spec.others == spec.template.spec.others
      && |job.template.spec.volumes| == |spec.template.spec.volumes|
      && (forall i :: 0 <= i < |spec.template.spec.volumes| ==>
            VolumeFollows(any, secretName, spec.template.spec.volumes[i], job.template.spec.volumes[i]))
      && AllPointedAndTold(any, current, secretName, spec.template.spec.containers, job.template.spec.containers)
      && AllPointedAndTold(any, current, secretName, spec.template.spec.initContainers, job.template.spec.initContainers)
      && (spec.backoffLimit.None? ==> job.backoffLimit == 0)
      && (spec.backoffLimit.Some? ==> Some(job.backoffLimit) == spec.backoffLimit)
  {
    hide RewriteVolume, VolumeFollows, ContainersFollow, RewriteContainers, AllPointedAndTold, JobName, InjectInto;
    var any := Binding(b.target, b.objectName, b.volumeName, b.envName, "");
    assert any == b.(containerName := "");
    RewritingAdopts(Promotion, any, current, secretName, spec.template.spec);
    ContainersAreTold(any, current, secretName, spec.template.spec.containers);
    ContainersAreTold(any, current, secretName, spec.template.spec.initContainers);
  }
}
