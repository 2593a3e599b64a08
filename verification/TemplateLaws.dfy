/**
  Laws of the template rewriting: when the canary runs what will be promoted, how successive
  rotations compose, and which references a rewriting can leave behind.
 */
module TemplateLaws {
  import opened Options
  import opened Naming
  import opened PodTemplate

  // ---------------------------------------------------------------- canary and promotion

  /** Both copies of the matching logic treat every reference of a list of containers alike. */
  ghost predicate RulesAgree(b: Binding, current: string, secretName: string, cs: seq<Container>) {
    forall i, j :: 0 <= i < |cs| && Selected(b, cs[i].name) && 0 <= j < |cs[i].env| ==>
      RulesAgreeOn(b, current, secretName, cs[i].env[j])
  }

  predicate RulesAgreeOn(b: Binding, current: string, secretName: string, e: EnvVar) {
    RefersToSecret(e) && EnvRef(e).name != secretName ==>
      (MatchesEnv(Canary, b, current, EnvRef(e)) <==> MatchesEnv(Promotion, b, current, EnvRef(e)))
  }

  lemma EnvVarAgreement(b: Binding, current: string, secretName: string, e: EnvVar)
    ensures RewriteEnvVar(Canary, b, current, secretName, e) == RewriteEnvVar(Promotion, b, current, secretName, e)
       <==> b.envName != "" || RulesAgreeOn(b, current, secretName, e)
  {
    if RefersToSecret(e) {
      assert PointEnv(e, secretName) == e <==> EnvRef(e).name == secretName;
    }
  }

  lemma ContainerAgreement(b: Binding, current: string, secretName: string, c: Container)
    requires Selected(b, c.name)
    ensures RewriteContainer(Canary, b, current, secretName, c) == RewriteContainer(Promotion, b, current, secretName, c)
       <==> b.envName != "" || forall j :: 0 <= j < |c.env| ==> RulesAgreeOn(b, current, secretName, c.env[j])
  {
    var canary := RewriteEnv(Canary, b, current, secretName, c.env);
    var promoted := RewriteEnv(Promotion, b, current, secretName, c.env);
    forall j | 0 <= j < |c.env|
      ensures canary[j] == promoted[j] <==> b.envName != "" || RulesAgreeOn(b, current, secretName, c.env[j])
    {
      EnvVarAgreement(b, current, secretName, c.env[j]);
    }
    assert canary == promoted <==> forall j :: 0 <= j < |c.env| ==> canary[j] == promoted[j];
  }

  lemma ContainersAgreement(b: Binding, current: string, secretName: string, cs: seq<Container>)
    ensures RewriteContainers(Canary, b, current, secretName, cs) == RewriteContainers(Promotion, b, current, secretName, cs)
       <==> b.envName != "" || RulesAgree(b, current, secretName, cs)
  {
    var canary := RewriteContainers(Canary, b, current, secretName, cs);
    var promoted := RewriteContainers(Promotion, b, current, secretName, cs);
    forall i | 0 <= i < |cs|
      ensures canary[i] == promoted[i] <==>
        (Selected(b, cs[i].name) ==>
         b.envName != "" || forall j :: 0 <= j < |cs[i].env| ==> RulesAgreeOn(b, current, secretName, cs[i].env[j]))
    {
      if Selected(b, cs[i].name) {
        ContainerAgreement(b, current, secretName, cs[i]);
      }
    }
    assert canary == promoted <==> forall i :: 0 <= i < |cs| ==> canary[i] == promoted[i];
  }

  /**
    The canary's pod spec is the promoted pod spec exactly when the environment variable is
    bound explicitly or the two matching rules agree on every reference of a selected container
    that does not already name the new secret.
   */
  lemma CanaryIsPromotion(b: Binding, current: string, desired: string, secretName: string, t: Template)
    ensures CanaryOf(b, current, desired, secretName, t).spec == Promoted(b, current, desired, secretName, t).spec
       <==> || b.envName != ""
            || (RulesAgree(b, current, secretName, t.spec.containers) && RulesAgree(b, current, secretName, t.spec.initContainers))
  {
    ContainersAgreement(b, current, secretName, t.spec.containers);
    ContainersAgreement(b, current, secretName, t.spec.initContainers);
  }

  // ---------------------------------------------------------------- rotations

  /** The name begins like a revision secret of the object the rewriting looks for. */
  predicate Recognized(b: Binding, secretName: string) {
    HasPrefix(secretName, RevisionPrefix(b.target, b.objectName))
  }

  /**
    When the rewriting finds again what it wrote: always under an explicit variable, and
    otherwise when a revision secret's name begins the way the implicit matching expects.
   */
  predicate Steady(b: Binding, managed: string) {
    b.envName != "" || HasPrefix(managed + "-rev-", b.objectName + "-rev-")
  }

  lemma SteadyIsRecognized(b: Binding, managed: string, r: string)
    requires Steady(b, managed)
    ensures b.envName != "" || Recognized(b, SecretName(b.target, managed, r))
  {
    if b.envName == "" {
      var found, name := RevisionPrefix(b.target, b.objectName), SecretName(b.target, managed, r);
      var lead := b.target + "-";
      assert found == lead + (b.objectName + "-rev-") && name == lead + (managed + "-rev-") + r;
      assert name[..|found|] == lead + (managed + "-rev-")[..|b.objectName + "-rev-"|];
    }
  }

  /** An envFrom reference that one revision in use makes matching and another does not. */
  predicate EnvFromAbsorbed(b: Binding, cur1: string, cur2: string, f: EnvFrom) {
    f.secret.Some? && MatchesEnvFrom(b, cur1, f.secret.value.name) ==> MatchesEnvFrom(b, cur2, f.secret.value.name)
  }

  ghost predicate EnvFromsAbsorbed(b: Binding, cur1: string, cur2: string, cs: seq<Container>) {
    forall i, j :: 0 <= i < |cs| && Selected(b, cs[i].name) && 0 <= j < |cs[i].envFrom| ==>
      EnvFromAbsorbed(b, cur1, cur2, cs[i].envFrom[j])
  }

  lemma VolumeAbsorbed(b: Binding, s1: string, s2: string, v: Volume)
    requires b.envName != "" || Recognized(b, s1)
    ensures RewriteVolume(b, s2, RewriteVolume(b, s1, v)) == RewriteVolume(b, s2, v)
  {
  }

  lemma VolumesAbsorbed(b: Binding, s1: string, s2: string, vs: seq<Volume>)
    requires b.envName != "" || Recognized(b, s1)
    ensures RewriteVolumes(b, s2, RewriteVolumes(b, s1, vs)) == RewriteVolumes(b, s2, vs)
  {
    forall i | 0 <= i < |vs| ensures RewriteVolume(b, s2, RewriteVolume(b, s1, vs[i])) == RewriteVolume(b, s2, vs[i]) {
      VolumeAbsorbed(b, s1, s2, vs[i]);
    }
  }

  lemma EnvAbsorbed(b: Binding, cur1: string, s1: string, cur2: string, s2: string, env: seq<EnvVar>)
    requires b.envName != "" || Recognized(b, s1)
    ensures RewriteEnv(Promotion, b, cur2, s2, RewriteEnv(Promotion, b, cur1, s1, env)) == RewriteEnv(Promotion, b, cur2, s2, env)
  {
    var once := RewriteEnv(Promotion, b, cur1, s1, env);
    forall i | 0 <= i < |env|
      ensures once[i].name == env[i].name
      ensures RewriteEnvVar(Promotion, b, cur2, s2, once[i]) == RewriteEnvVar(Promotion, b, cur2, s2, env[i])
    {
    }
    if b.envName != "" && !Binds(b, env) {
      assert once[|env|] == BoundEnv(b, s1);
    }
    assert b.envName != "" ==> Binds(b, once) by {
      if b.envName != "" {
        if Binds(b, env) {
          var i :| 0 <= i < |env| && env[i].name == b.envName;
          assert once[i].name == b.envName;
        }
      }
    }
    assert RewriteEnv(Promotion, b, cur2, s2, once) == RewriteEnv(Promotion, b, cur2, s2, env);
  }

  lemma EnvFromItemAbsorbed(b: Binding, cur1: string, s1: string, cur2: string, s2: string, f: EnvFrom)
    requires b.envName != "" || (Recognized(b, s1) && Recognized(b, s2))
    ensures RewriteEnvFromItem(b, cur2, s2, RewriteEnvFromItem(b, cur1, s1, f)) == RewriteEnvFromItem(b, cur2, s2, f)
       <==> b.envName != "" || EnvFromAbsorbed(b, cur1, cur2, f)
  {
  }

  lemma ContainerAbsorbed(b: Binding, cur1: string, s1: string, cur2: string, s2: string, c: Container)
    requires (b.envName != "" || (Recognized(b, s1) && Recognized(b, s2))) && Selected(b, c.name)
    ensures RewriteContainer(Promotion, b, cur2, s2, RewriteContainer(Promotion, b, cur1, s1, c))
         == RewriteContainer(Promotion, b, cur2, s2, c)
       <==> b.envName != "" || forall j :: 0 <= j < |c.envFrom| ==> EnvFromAbsorbed(b, cur1, cur2, c.envFrom[j])
  {
    EnvAbsorbed(b, cur1, s1, cur2, s2, c.env);
    var twice := RewriteEnvFrom(b, cur2, s2, RewriteEnvFrom(b, cur1, s1, c.envFrom));
    var once := RewriteEnvFrom(b, cur2, s2, c.envFrom);
    forall j | 0 <= j < |c.envFrom|
      ensures twice[j] == once[j] <==> b.envName != "" || EnvFromAbsorbed(b, cur1, cur2, c.envFrom[j])
    {
      EnvFromItemAbsorbed(b, cur1, s1, cur2, s2, c.envFrom[j]);
    }
    assert twice == once <==> forall j :: 0 <= j < |c.envFrom| ==> twice[j] == once[j];
  }

  lemma ContainersAbsorbed(b: Binding, cur1: string, s1: string, cur2: string, s2: string, cs: seq<Container>)
    requires b.envName != "" || (Recognized(b, s1) && Recognized(b, s2))
    ensures RewriteContainers(Promotion, b, cur2, s2, RewriteContainers(Promotion, b, cur1, s1, cs))
         == RewriteContainers(Promotion, b, cur2, s2, cs)
       <==> b.envName != "" || EnvFromsAbsorbed(b, cur1, cur2, cs)
  {
    var twice := RewriteContainers(Promotion, b, cur2, s2, RewriteContainers(Promotion, b, cur1, s1, cs));
    var once := RewriteContainers(Promotion, b, cur2, s2, cs);
    forall i | 0 <= i < |cs|
      ensures twice[i] == once[i] <==>
        (Selected(b, cs[i].name) ==>
         b.envName != "" || forall j :: 0 <= j < |cs[i].envFrom| ==> EnvFromAbsorbed(b, cur1, cur2, cs[i].envFrom[j]))
    {
      if Selected(b, cs[i].name) {
        ContainerAbsorbed(b, cur1, s1, cur2, s2, cs[i]);
      }
    }
    assert twice == once <==> forall i :: 0 <= i < |cs| ==> twice[i] == once[i];
  }

  /**
    For a fitting policy, a rotation to one revision followed by a rotation to another leaves what
    the second alone would have left, exactly when every envFrom reference that the revision in use
    at the first made matching still matches at the second.
   */
  lemma RotationAbsorbs(b: Binding, managed: string, cur1: string, r1: string, cur2: string, r2: string, t: Template)
    requires Steady(b, managed)
    ensures var s1, s2 := SecretName(b.target, managed, r1), SecretName(b.target, managed, r2);
      Promoted(b, cur2, r2, s2, Promoted(b, cur1, r1, s1, t)) == Promoted(b, cur2, r2, s2, t)
      <==> || b.envName != ""
           || (EnvFromsAbsorbed(b, cur1, cur2, t.spec.containers) && EnvFromsAbsorbed(b, cur1, cur2, t.spec.initContainers))
  {
    hide EnvFromsAbsorbed, Recognized, Steady, RewriteVolumes, RewriteContainers, SecretName;
    var s1, s2 := SecretName(b.target, managed, r1), SecretName(b.target, managed, r2);
    SteadyIsRecognized(b, managed, r1);
    SteadyIsRecognized(b, managed, r2);
    assert t.annotations[ANNOTATION_REVISION := r1][ANNOTATION_REVISION := r2] == t.annotations[ANNOTATION_REVISION := r2];
    VolumesAbsorbed(b, s1, s2, t.spec.volumes);
    ContainersAbsorbed(b, cur1, s1, cur2, s2, t.spec.containers);
    ContainersAbsorbed(b, cur1, s1, cur2, s2, t.spec.initContainers);
  }

  /** A revision that may be in use: none yet, or a hash. */
  predicate InUse(current: string) {
    current == "" || IsRevision(current)
  }

  /**
    An import of the old form, the target, "-rev-" and a hash, that nothing but the revision in use
    makes matching.
   */
  predicate Tied(b: Binding, f: EnvFrom) {
    && f.secret.Some?
    && var n, prefix := f.secret.value.name, b.target + "-rev-";
    && HasPrefix(n, prefix) && IsRevision(n[|prefix|..]) && !MatchesEnvFrom(b, "", n)
  }

  ghost predicate NoneTied(b: Binding, cs: seq<Container>) {
    forall i, j :: 0 <= i < |cs| && Selected(b, cs[i].name) && 0 <= j < |cs[i].envFrom| ==> !Tied(b, cs[i].envFrom[j])
  }

  ghost predicate Untangled(b: Binding, t: Template) {
    b.envName != "" || (NoneTied(b, t.spec.containers) && NoneTied(b, t.spec.initContainers))
  }

  lemma UntiedAbsorbs(b: Binding, cur1: string, cur2: string, f: EnvFrom)
    requires InUse(cur1) && !Tied(b, f)
    ensures EnvFromAbsorbed(b, cur1, cur2, f)
  {
    var legacy, managed := b.target + "-rev-", RevisionPrefix(b.target, b.objectName);
    assert (legacy + cur1)[|legacy|..] == cur1 && HasPrefix(legacy + cur1, legacy);
    assert HasPrefix(managed + cur1, managed);
  }

  lemma UntangledAbsorbs(b: Binding, cur1: string, cur2: string, cs: seq<Container>)
    requires InUse(cur1) && NoneTied(b, cs)
    ensures EnvFromsAbsorbed(b, cur1, cur2, cs)
  {
    forall i, j | 0 <= i < |cs| && Selected(b, cs[i].name) && 0 <= j < |cs[i].envFrom|
      ensures EnvFromAbsorbed(b, cur1, cur2, cs[i].envFrom[j])
    {
      UntiedAbsorbs(b, cur1, cur2, cs[i].envFrom[j]);
    }
  }

  /** For an untangled template it does not matter which revision was in use at the earlier rotation. */
  lemma UntangledForgets(b: Binding, managed: string, cur1: string, r1: string, cur2: string, r2: string, t: Template)
    requires Steady(b, managed) && InUse(cur1) && Untangled(b, t)
    ensures var s1, s2 := SecretName(b.target, managed, r1), SecretName(b.target, managed, r2);
      Promoted(b, cur2, r2, s2, Promoted(b, cur1, r1, s1, t)) == Promoted(b, cur2, r2, s2, t)
  {
    hide EnvFromsAbsorbed, Promoted, Steady, NoneTied;
    if b.envName == "" {
      UntangledAbsorbs(b, cur1, cur2, t.spec.containers);
      UntangledAbsorbs(b, cur1, cur2, t.spec.initContainers);
    }
    RotationAbsorbs(b, managed, cur1, r1, cur2, r2, t);
  }

  /** One rotation: the revision in use and the revision rotated to. */
  datatype Turn = Turn(current: string, revision: Revision)

  predicate TurnsOk(turns: seq<Turn>) {
    forall i :: 0 <= i < |turns| ==> InUse(turns[i].current)
  }

  function Rotated(b: Binding, managed: string, turn: Turn, t: Template): Template {
    Promoted(b, turn.current, turn.revision, SecretName(b.target, managed, turn.revision), t)
  }

  /** One rotation after another. */
  function Rotations(b: Binding, managed: string, turns: seq<Turn>, t: Template): Template {
    if |turns| == 0 then t
    else Rotated(b, managed, turns[|turns| - 1], Rotations(b, managed, turns[..|turns| - 1], t))
  }

  /** Whatever rotations went before, the template is one rotation of the original: the last. */
  ghost predicate Forgets(b: Binding, managed: string, t: Template) {
    forall turns :: |turns| > 0 && TurnsOk(turns) ==>
      Rotations(b, managed, turns, t) == Rotated(b, managed, turns[|turns| - 1], t)
  }

  lemma {:induction false} UntangledRotations(b: Binding, managed: string, turns: seq<Turn>, t: Template)
    requires Steady(b, managed) && Untangled(b, t) && |turns| > 0 && TurnsOk(turns)
    ensures Rotations(b, managed, turns, t) == Rotated(b, managed, turns[|turns| - 1], t)
    decreases |turns|
  {
    hide Promoted, Steady, Untangled, SecretName;
    var n := |turns| - 1;
    if n > 0 {
      UntangledRotations(b, managed, turns[..n], t);
      var before, last := turns[n - 1], turns[n];
      assert turns[..n][n - 1] == before;
      UntangledForgets(b, managed, before.current, before.revision, last.current, last.revision, t);
    }
  }

  /** The hash a tied import names, and the two rotations that show it. */
  lemma TiedShows(b: Binding, managed: string, t: Template, f: EnvFrom) returns (turns: seq<Turn>)
    requires Tied(b, f)
    ensures |turns| == 2 && TurnsOk(turns) && !EnvFromAbsorbed(b, turns[0].current, turns[1].current, f)
  {
    var prefix := b.target + "-rev-";
    var n := f.secret.value.name;
    var used: Revision := n[|prefix|..];
    assert n == prefix + used;
    turns := [Turn(used, used), Turn("", used)];
  }

  lemma TurnsOfTwo(b: Binding, managed: string, turns: seq<Turn>, t: Template)
    requires |turns| == 2
    ensures Rotations(b, managed, turns, t) == Rotated(b, managed, turns[1], Rotated(b, managed, turns[0], t))
  {
    assert turns[..1][..0] == [] && turns[..1][0] == turns[0];
    assert Rotations(b, managed, turns[..1], t) == Rotated(b, managed, turns[0], t);
  }

  lemma TangledRemembers(b: Binding, managed: string, t: Template)
    requires Steady(b, managed) && !Untangled(b, t)
    ensures !Forgets(b, managed, t)
  {
    var cs := if !NoneTied(b, t.spec.containers) then t.spec.containers else t.spec.initContainers;
    var i, j :| 0 <= i < |cs| && Selected(b, cs[i].name) && 0 <= j < |cs[i].envFrom| && Tied(b, cs[i].envFrom[j]);
    var turns := TiedShows(b, managed, t, cs[i].envFrom[j]);
    assert !EnvFromsAbsorbed(b, turns[0].current, turns[1].current, cs);
    hide Promoted, Rotations, Steady, NoneTied, EnvFromsAbsorbed;
    TurnsOfTwo(b, managed, turns, t);
    RotationAbsorbs(b, managed, turns[0].current, turns[0].revision, turns[1].current, turns[1].revision, t);
    assert Rotations(b, managed, turns, t) != Rotated(b, managed, turns[1], t);
  }

  /**
    For a fitting policy, rotations forget what went before exactly on the templates in which no
    selected container has an import that only the revision in use makes matching.
   */
  lemma RotationsForgetIff(b: Binding, managed: string, t: Template)
    requires Steady(b, managed)
    ensures Forgets(b, managed, t) <==> Untangled(b, t)
  {
    if Untangled(b, t) {
      forall turns | |turns| > 0 && TurnsOk(turns)
        ensures Rotations(b, managed, turns, t) == Rotated(b, managed, turns[|turns| - 1], t)
      {
        UntangledRotations(b, managed, turns, t);
      }
    } else {
      TangledRemembers(b, managed, t);
    }
  }

  // ---------------------------------------------------------------- what stays

  /** The new container is the old one, but that some matched references now name the secret. */
  ghost predicate OnlyRepointed(b: Binding, current: string, secretName: string, before: Container, after: Container) {
    && after.name == before.name && after.others == before.others
    && |after.env| == |before.env| && |after.envFrom| == |before.envFrom|
    && (forall j :: 0 <= j < |before.env| && after.env[j] != before.env[j] ==>
      && Selected(b, before.name)
      && RefersToSecret(before.env[j]) && MatchesEnv(Promotion, b, current, EnvRef(before.env[j]))
      && after.env[j] == PointEnv(before.env[j], secretName))
    && (forall j :: 0 <= j < |before.envFrom| && after.envFrom[j] != before.envFrom[j] ==>
      && Selected(b, before.name)
      && before.envFrom[j].secret.Some? && MatchesEnvFrom(b, current, before.envFrom[j].secret.value.name)
      && after.envFrom[j] == before.envFrom[j].(secret := Some(before.envFrom[j].secret.value.(name := secretName))))
  }

  /** The volume is as it was, unless it is the bound one or, with none bound, a matched one. */
  ghost predicate VolumeRepointed(b: Binding, secretName: string, before: Volume, after: Volume) {
    after != before ==>
      && after == PointVolume(before, secretName)
      && if b.volumeName != "" then before.name == b.volumeName else before.secret.Some? && MatchesVolume(b, before)
  }

  /**
    Under implicit matching a promotion only repoints what it matches: no entry is added, dropped
    or moved, no key, flag, other source, label or other annotation changes, and a reference that
    is not matched, or whose container is not selected, stays.
   */
  lemma ImplicitPromotionOnlyRepoints(b: Binding, current: string, desired: string, secretName: string, t: Template)
    requires b.envName == ""
    ensures var p := Promoted(b, current, desired, secretName, t);
      && p.labels == t.labels && p.spec.others == t.spec.others
      && p.annotations - {ANNOTATION_REVISION} == t.annotations - {ANNOTATION_REVISION}
      && |p.spec.volumes| == |t.spec.volumes|
      && (forall i :: 0 <= i < |t.spec.volumes| ==>
        VolumeRepointed(b, secretName, t.spec.volumes[i], p.spec.volumes[i]))
      && |p.spec.containers| == |t.spec.containers|
      && (forall i :: 0 <= i < |t.spec.containers| ==>
        OnlyRepointed(b, current, secretName, t.spec.containers[i], p.spec.containers[i]))
      && |p.spec.initContainers| == |t.spec.initContainers|
      && (forall i :: 0 <= i < |t.spec.initContainers| ==>
        OnlyRepointed(b, current, secretName, t.spec.initContainers[i], p.spec.initContainers[i]))
  {
  }

  /** The value the kubelet gives a variable: that of the last entry of its name. */
  function LastEnv(env: seq<EnvVar>, name: string): Option<EnvVar> {
    if |env| == 0 then None
    else if env[|env| - 1].name == name then Some(env[|env| - 1])
    else LastEnv(env[..|env| - 1], name)
  }

  lemma {:induction false} LastEnvOfRewrite(rule: Rule, b: Binding, current: string, secretName: string,
                                            env: seq<EnvVar>, n: nat, name: string)
    requires b.envName != "" && n <= |env|
    ensures var all := seq(n, i requires 0 <= i < n => RewriteEnvVar(rule, b, current, secretName, env[i]));
      && (name != b.envName ==> LastEnv(all, name) == LastEnv(env[..n], name))
      && (name == b.envName ==>
        LastEnv(all, name) ==
        if exists i :: 0 <= i < n && env[i].name == name then Some(BoundEnv(b, secretName)) else None)
  {
    if n > 0 {
      LastEnvOfRewrite(rule, b, current, secretName, env, n - 1, name);
      var all := seq(n, i requires 0 <= i < n => RewriteEnvVar(rule, b, current, secretName, env[i]));
      assert all[..n - 1] == seq(n - 1, i requires 0 <= i < n - 1 => RewriteEnvVar(rule, b, current, secretName, env[i]));
      assert env[..n][..n - 1] == env[..n - 1];
    }
  }

  /**
    An explicit binding gives its variable the new secret in every selected container, whatever
    duplicates the list held, and gives every other variable what it had.
   */
  lemma ExplicitBindingTakesEffect(rule: Rule, b: Binding, current: string, secretName: string, env: seq<EnvVar>,
                                   name: string)
    requires b.envName != ""
    ensures LastEnv(RewriteEnv(rule, b, current, secretName, env), name) ==
      if name == b.envName then Some(BoundEnv(b, secretName)) else LastEnv(env, name)
  {
    LastEnvOfRewrite(rule, b, current, secretName, env, |env|, name);
    var kept := seq(|env|, i requires 0 <= i < |env| => RewriteEnvVar(rule, b, current, secretName, env[i]));
    assert env[..|env|] == env;
    if !Binds(b, env) {
      assert (kept + [BoundEnv(b, secretName)])[..|env|] == kept;
    } else {
      assert kept + [] == kept;
    }
  }

  // ---------------------------------------------------------------- references to a policy's own revisions

  function EnvRefs(env: seq<EnvVar>): set<string> {
    set j | 0 <= j < |env| && RefersToSecret(env[j]) :: EnvRef(env[j]).name
  }

  function EnvFromRefs(fs: seq<EnvFrom>): set<string> {
    set j | 0 <= j < |fs| && fs[j].secret.Some? :: fs[j].secret.value.name
  }

  function ContainerRefs(cs: seq<Container>): set<string> {
    set i, n | 0 <= i < |cs| && n in EnvRefs(cs[i].env) + EnvFromRefs(cs[i].envFrom) :: n
  }

  function VolumeRefs(vs: seq<Volume>): set<string> {
    set i | 0 <= i < |vs| && vs[i].secret.Some? :: vs[i].secret.value.secretName
  }

  /** Every secret a template refers to through a volume, an env entry or an envFrom entry. */
  function Refs(t: Template): set<string> {
    VolumeRefs(t.spec.volumes) + ContainerRefs(t.spec.containers) + ContainerRefs(t.spec.initContainers)
  }

  /** The name begins like a revision secret of the object the policy manages. */
  predicate Own(b: Binding, managed: string, secretName: string) {
    HasPrefix(secretName, RevisionPrefix(b.target, managed))
  }

  /** The revision secrets of the policy that the template refers to. */
  function OwnRefs(b: Binding, managed: string, t: Template): set<string> {
    set n | n in Refs(t) && Own(b, managed, n)
  }

  predicate VolumePlace(b: Binding, v: Volume) {
    if b.volumeName != "" then v.name == b.volumeName else b.envName == ""
  }

  predicate EnvPlace(b: Binding, e: EnvVar) {
    b.envName == "" || e.name == b.envName
  }

  predicate VolumeCovered(b: Binding, managed: string, v: Volume) {
    v.secret.Some? && Own(b, managed, v.secret.value.secretName) ==> VolumePlace(b, v)
  }

  predicate EnvCovered(b: Binding, managed: string, c: Container, e: EnvVar) {
    RefersToSecret(e) && Own(b, managed, EnvRef(e).name) ==> Selected(b, c.name) && EnvPlace(b, e)
  }

  predicate EnvFromCovered(b: Binding, managed: string, c: Container, f: EnvFrom) {
    f.secret.Some? && Own(b, managed, f.secret.value.name) ==> Selected(b, c.name) && b.envName == ""
  }

  ghost predicate ContainerCovered(b: Binding, managed: string, c: Container) {
    && (forall j :: 0 <= j < |c.env| ==> EnvCovered(b, managed, c, c.env[j]))
    && (forall j :: 0 <= j < |c.envFrom| ==> EnvFromCovered(b, managed, c, c.envFrom[j]))
  }

  /** Every reference to an own revision stands where the rewriting writes. */
  ghost predicate Covered(b: Binding, managed: string, t: Template) {
    && (forall i :: 0 <= i < |t.spec.volumes| ==> VolumeCovered(b, managed, t.spec.volumes[i]))
    && (forall i :: 0 <= i < |t.spec.containers| ==> ContainerCovered(b, managed, t.spec.containers[i]))
    && (forall i :: 0 <= i < |t.spec.initContainers| ==> ContainerCovered(b, managed, t.spec.initContainers[i]))
  }

  lemma OwnIsRecognized(b: Binding, managed: string, n: string)
    requires b.envName == "" && Steady(b, managed) && Own(b, managed, n)
    ensures Recognized(b, n)
  {
    var long, short := RevisionPrefix(b.target, managed), RevisionPrefix(b.target, b.objectName);
    assert long == b.target + "-" + (managed + "-rev-") && short == b.target + "-" + (b.objectName + "-rev-");
    assert short <= long;
  }

  lemma VolumeRewritten(b: Binding, managed: string, secretName: string, v: Volume)
    requires Steady(b, managed) && VolumeCovered(b, managed, v)
    ensures var w := RewriteVolume(b, secretName, v);
      && VolumeCovered(b, managed, w)
      && (w.secret.Some? && Own(b, managed, w.secret.value.secretName) ==> w.secret.value.secretName == secretName)
  {
    if b.envName == "" && v.secret.Some? && Own(b, managed, v.secret.value.secretName) {
      OwnIsRecognized(b, managed, v.secret.value.secretName);
    }
  }

  lemma EnvRewritten(b: Binding, managed: string, current: string, secretName: string, c: Container, e: EnvVar)
    requires Steady(b, managed) && EnvCovered(b, managed, c, e) && Selected(b, c.name)
    ensures var w := RewriteEnvVar(Promotion, b, current, secretName, e);
      && EnvCovered(b, managed, c, w)
      && (RefersToSecret(w) && Own(b, managed, EnvRef(w).name) ==> EnvRef(w).name == secretName)
  {
    if b.envName == "" && RefersToSecret(e) && Own(b, managed, EnvRef(e).name) {
      OwnIsRecognized(b, managed, EnvRef(e).name);
    }
  }

  lemma EnvFromRewritten(b: Binding, managed: string, current: string, secretName: string, c: Container, f: EnvFrom)
    requires Steady(b, managed) && EnvFromCovered(b, managed, c, f) && Selected(b, c.name)
    ensures var w := RewriteEnvFromItem(b, current, secretName, f);
      && EnvFromCovered(b, managed, c, w)
      && (w.secret.Some? && Own(b, managed, w.secret.value.name) ==> w.secret.value.name == secretName)
  {
    if b.envName == "" && f.secret.Some? && Own(b, managed, f.secret.value.name) {
      OwnIsRecognized(b, managed, f.secret.value.name);
    }
  }

  lemma ContainerRewritten(b: Binding, managed: string, current: string, secretName: string, c: Container)
    requires Steady(b, managed) && ContainerCovered(b, managed, c)
    ensures var w := RewriteContainer(Promotion, b, current, secretName, c);
      && ContainerCovered(b, managed, w)
      && (forall n :: n in EnvRefs(w.env) + EnvFromRefs(w.envFrom) && Own(b, managed, n) ==> n == secretName)
  {
    var w := RewriteContainer(Promotion, b, current, secretName, c);
    if Selected(b, c.name) {
      forall j | 0 <= j < |w.env|
        ensures EnvCovered(b, managed, w, w.env[j])
        ensures RefersToSecret(w.env[j]) && Own(b, managed, EnvRef(w.env[j]).name) ==> EnvRef(w.env[j]).name == secretName
      {
        if j < |c.env| {
          EnvRewritten(b, managed, current, secretName, c, c.env[j]);
        } else {
          assert w.env[j] == BoundEnv(b, secretName);
        }
      }
      forall j | 0 <= j < |w.envFrom|
        ensures EnvFromCovered(b, managed, w, w.envFrom[j])
        ensures w.envFrom[j].secret.Some? && Own(b, managed, w.envFrom[j].secret.value.name) ==>
          w.envFrom[j].secret.value.name == secretName
      {
        EnvFromRewritten(b, managed, current, secretName, c, c.envFrom[j]);
      }
    }
  }

  /**
    A promotion to a revision leaves no reference to any other revision of the policy, and what
    it writes is found again by the next one.
   */
  lemma PromotionReplacesOwnRefs(b: Binding, managed: string, current: string, desired: string, secretName: string,
                                 t: Template)
    requires Steady(b, managed) && Covered(b, managed, t)
    ensures var p := Promoted(b, current, desired, secretName, t);
      Covered(b, managed, p) && OwnRefs(b, managed, p) <= {secretName}
  {
    var p := Promoted(b, current, desired, secretName, t);
    forall i | 0 <= i < |p.spec.volumes|
      ensures VolumeCovered(b, managed, p.spec.volumes[i])
      ensures p.spec.volumes[i].secret.Some? && Own(b, managed, p.spec.volumes[i].secret.value.secretName) ==>
        p.spec.volumes[i].secret.value.secretName == secretName
    {
      VolumeRewritten(b, managed, secretName, t.spec.volumes[i]);
    }
    ContainersRewritten(b, managed, current, secretName, t.spec.containers);
    ContainersRewritten(b, managed, current, secretName, t.spec.initContainers);
  }

  lemma ContainersRewritten(b: Binding, managed: string, current: string, secretName: string, cs: seq<Container>)
    requires Steady(b, managed) && forall i :: 0 <= i < |cs| ==> ContainerCovered(b, managed, cs[i])
    ensures var ws := RewriteContainers(Promotion, b, current, secretName, cs);
      && (forall i :: 0 <= i < |ws| ==> ContainerCovered(b, managed, ws[i]))
      && (forall n :: n in ContainerRefs(ws) && Own(b, managed, n) ==> n == secretName)
  {
    var ws := RewriteContainers(Promotion, b, current, secretName, cs);
    forall i | 0 <= i < |ws|
      ensures ContainerCovered(b, managed, ws[i])
      ensures forall n :: n in EnvRefs(ws[i].env) + EnvFromRefs(ws[i].envFrom) && Own(b, managed, n) ==> n == secretName
    {
      ContainerRewritten(b, managed, current, secretName, cs[i]);
    }
  }

  /** A template without references to own revisions is covered. */
  lemma UntouchedIsCovered(b: Binding, managed: string, t: Template)
    requires OwnRefs(b, managed, t) == {}
    ensures Covered(b, managed, t)
  {
    assert forall n :: n in Refs(t) ==> n in OwnRefs(b, managed, t) || !Own(b, managed, n);
    NoOwnCovers(b, managed, t.spec.containers);
    NoOwnCovers(b, managed, t.spec.initContainers);
    forall i | 0 <= i < |t.spec.volumes| ensures VolumeCovered(b, managed, t.spec.volumes[i]) {
      if t.spec.volumes[i].secret.Some? {
        assert t.spec.volumes[i].secret.value.secretName in VolumeRefs(t.spec.volumes);
      }
    }
  }

  lemma NoOwnCovers(b: Binding, managed: string, cs: seq<Container>)
    requires forall n :: n in ContainerRefs(cs) ==> !Own(b, managed, n)
    ensures forall i :: 0 <= i < |cs| ==> ContainerCovered(b, managed, cs[i])
  {
    forall i | 0 <= i < |cs| ensures ContainerCovered(b, managed, cs[i]) {
      forall j | 0 <= j < |cs[i].env| ensures EnvCovered(b, managed, cs[i], cs[i].env[j]) {
        if RefersToSecret(cs[i].env[j]) {
          assert EnvRef(cs[i].env[j]).name in EnvRefs(cs[i].env);
          assert EnvRef(cs[i].env[j]).name in EnvRefs(cs[i].env) + EnvFromRefs(cs[i].envFrom);
        }
      }
      forall j | 0 <= j < |cs[i].envFrom| ensures EnvFromCovered(b, managed, cs[i], cs[i].envFrom[j]) {
        if cs[i].envFrom[j].secret.Some? {
          assert cs[i].envFrom[j].secret.value.name in EnvFromRefs(cs[i].envFrom);
          assert cs[i].envFrom[j].secret.value.name in EnvRefs(cs[i].env) + EnvFromRefs(cs[i].envFrom);
        }
      }
    }
  }

  lemma RewrittenRefs(rule: Rule, b: Binding, current: string, secretName: string, cs: seq<Container>)
    ensures ContainerRefs(RewriteContainers(rule, b, current, secretName, cs)) <= ContainerRefs(cs) + {secretName}
  {
    var ws := RewriteContainers(rule, b, current, secretName, cs);
    forall i, n | 0 <= i < |ws| && n in EnvRefs(ws[i].env) + EnvFromRefs(ws[i].envFrom)
      ensures n in ContainerRefs(cs) + {secretName}
    {
      if n != secretName {
        if n in EnvRefs(ws[i].env) {
          var j :| 0 <= j < |ws[i].env| && RefersToSecret(ws[i].env[j]) && EnvRef(ws[i].env[j]).name == n;
          assert j < |cs[i].env| && cs[i].env[j] == ws[i].env[j];
          assert n in EnvRefs(cs[i].env);
        } else {
          var j :| 0 <= j < |ws[i].envFrom| && ws[i].envFrom[j].secret.Some? && ws[i].envFrom[j].secret.value.name == n;
          assert cs[i].envFrom[j] == ws[i].envFrom[j];
          assert n in EnvFromRefs(cs[i].envFrom);
        }
        assert n in EnvRefs(cs[i].env) + EnvFromRefs(cs[i].envFrom);
      }
    }
  }

  /** A promotion brings in no reference but the one to its own secret. */
  lemma PromotedRefs(b: Binding, current: string, desired: string, secretName: string, t: Template)
    ensures Refs(Promoted(b, current, desired, secretName, t)) <= Refs(t) + {secretName}
  {
    RewrittenRefs(Promotion, b, current, secretName, t.spec.containers);
    RewrittenRefs(Promotion, b, current, secretName, t.spec.initContainers);
    var vs := RewriteVolumes(b, secretName, t.spec.volumes);
    forall i | 0 <= i < |vs| && vs[i].secret.Some? && vs[i].secret.value.secretName != secretName
      ensures vs[i].secret.value.secretName in VolumeRefs(t.spec.volumes)
    {
      assert t.spec.volumes[i] == vs[i];
    }
  }
}
