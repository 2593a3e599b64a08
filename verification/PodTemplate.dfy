/**
  Pod templates and the rewriting of their secret references: the in-place loops of the
  promotion and of the canary, each proved equal to an element-wise function.
 */
module PodTemplate {
  import opened Options
  import opened Naming

  // ---------------------------------------------------------------- templates

  datatype KeySelector = KeySelector(name: string, key: string, optional: Option<bool>)

  /** The other sources an environment variable may have are kept as they are. */
  datatype EnvSource = EnvSource(secretKey: Option<KeySelector>, others: string)

  datatype EnvVar = EnvVar(name: string, value: string, from: Option<EnvSource>)

  datatype SecretRef = SecretRef(name: string, optional: Option<bool>)

  datatype EnvFrom = EnvFrom(prefix: string, secret: Option<SecretRef>, others: string)

  datatype SecretVolume = SecretVolume(secretName: string, others: string)

  datatype Volume = Volume(name: string, secret: Option<SecretVolume>, others: string)

  datatype Container = Container(name: string, env: seq<EnvVar>, envFrom: seq<EnvFrom>, others: string)

  datatype PodSpec = PodSpec(volumes: seq<Volume>, containers: seq<Container>, initContainers: seq<Container>,
      others: string)

  datatype Template = Template(labels: map<string, string>, annotations: map<string, string>, spec: PodSpec)

  const ANNOTATION_REVISION := "dso.quantumsys.dev/revision"
  const LABEL_CANARY := "dso.quantumsys.dev/canary"
  const LABEL_TARGET := "dso.quantumsys.dev/target"

  // ---------------------------------------------------------------- what is rewritten

  /**
    What the rewriting reads from the policy: the target's name, VaultRef.ObjectName, and the
    explicit bindings of TargetRef (all empty when there is none).
   */
  datatype Binding = Binding(target: string, objectName: string, volumeName: string, envName: string,
      containerName: string)

  /** The two copies of the matching logic differ in how they match an environment variable. */
  datatype Rule = Promotion | Canary

  predicate Selected(b: Binding, containerName: string) {
    b.containerName == "" || containerName == b.containerName
  }

  predicate MatchesVolume(b: Binding, v: Volume)
    requires v.secret.Some?
  {
    var n := v.secret.value.secretName;
    || HasPrefix(n, RevisionPrefix(b.target, b.objectName))
    || n == b.objectName
    || n == b.target + "-" + b.objectName
    || n == b.target + "-" + b.objectName + "-secret"
    || n == b.target + "-secret"
    || v.name == b.objectName
    || v.name == b.objectName + "-volume"
    || HasPrefix(n, b.target + "-rev-")
  }

  predicate NamesRevision(name: string, prefix: string, current: string) {
    current != "" && name == prefix + current
  }

  predicate MatchesEnv(rule: Rule, b: Binding, current: string, ref: KeySelector) {
    || HasPrefix(ref.name, RevisionPrefix(b.target, b.objectName))
    || ref.name == b.objectName
    || ref.name == b.target + "-" + b.objectName
    || (match rule
        case Promotion => HasPrefix(ref.name, b.target + "-rev-")
        case Canary =>
          || ref.key == b.objectName
          || NamesRevision(ref.name, RevisionPrefix(b.target, b.objectName), current)
          || NamesRevision(ref.name, b.target + "-rev-", current))
  }

  predicate MatchesEnvFrom(b: Binding, current: string, name: string) {
    || HasPrefix(name, RevisionPrefix(b.target, b.objectName))
    || name == b.objectName
    || name == b.target + "-" + b.objectName
    || NamesRevision(name, RevisionPrefix(b.target, b.objectName), current)
    || NamesRevision(name, b.target + "-rev-", current)
  }

  // ---------------------------------------------------------------- the rewriting as a function

  /** Gives a volume a secret, creating an empty secret source if it had none. */
  function PointVolume(v: Volume, secretName: string): Volume {
    v.(secret := Some(if v.secret.Some? then v.secret.value.(secretName := secretName) else SecretVolume(secretName, "")))
  }

  function RewriteVolume(b: Binding, secretName: string, v: Volume): Volume {
    if b.volumeName != "" then
      if v.name == b.volumeName then PointVolume(v, secretName) else v
    else if b.envName == "" && v.secret.Some? && MatchesVolume(b, v) then PointVolume(v, secretName)
    else v
  }

  /** The variable an explicit binding asks for. */
  function BoundEnv(b: Binding, secretName: string): EnvVar {
    EnvVar(b.envName, "", Some(EnvSource(Some(KeySelector(secretName, b.objectName, None)), "")))
  }

  function PointEnv(e: EnvVar, secretName: string): EnvVar
    requires e.from.Some? && e.from.value.secretKey.Some?
  {
    e.(from := Some(e.from.value.(secretKey := Some(e.from.value.secretKey.value.(name := secretName)))))
  }

  predicate RefersToSecret(e: EnvVar) {
    e.from.Some? && e.from.value.secretKey.Some?
  }

  function EnvRef(e: EnvVar): KeySelector
    requires RefersToSecret(e)
  {
    e.from.value.secretKey.value
  }

  function RewriteEnvVar(rule: Rule, b: Binding, current: string, secretName: string, e: EnvVar): EnvVar {
    if b.envName != "" then
      if e.name == b.envName then BoundEnv(b, secretName) else e
    else if RefersToSecret(e) && MatchesEnv(rule, b, current, EnvRef(e)) then PointEnv(e, secretName)
    else e
  }

  predicate Binds(b: Binding, env: seq<EnvVar>) {
    exists i :: 0 <= i < |env| && env[i].name == b.envName
  }

  function RewriteEnv(rule: Rule, b: Binding, current: string, secretName: string, env: seq<EnvVar>): seq<EnvVar> {
    seq(|env|, i requires 0 <= i < |env| => RewriteEnvVar(rule, b, current, secretName, env[i]))
    + if b.envName != "" && !Binds(b, env) then [BoundEnv(b, secretName)] else []
  }

  function RewriteEnvFromItem(b: Binding, current: string, secretName: string, f: EnvFrom): EnvFrom {
    if b.envName == "" && f.secret.Some? && MatchesEnvFrom(b, current, f.secret.value.name)
    then f.(secret := Some(f.secret.value.(name := secretName)))
    else f
  }

  function RewriteEnvFrom(b: Binding, current: string, secretName: string, fs: seq<EnvFrom>): seq<EnvFrom> {
    seq(|fs|, i requires 0 <= i < |fs| => RewriteEnvFromItem(b, current, secretName, fs[i]))
  }

  function RewriteContainer(rule: Rule, b: Binding, current: string, secretName: string, c: Container): Container {
    if !Selected(b, c.name) then c
    else c.(env := RewriteEnv(rule, b, current, secretName, c.env),
            envFrom := RewriteEnvFrom(b, current, secretName, c.envFrom))
  }

  function RewriteContainers(rule: Rule, b: Binding, current: string, secretName: string,
                             cs: seq<Container>): (r: seq<Container>) {
    seq(|cs|, i requires 0 <= i < |cs| => RewriteContainer(rule, b, current, secretName, cs[i]))
  }

  function RewriteVolumes(b: Binding, secretName: string, vs: seq<Volume>): seq<Volume> {
    seq(|vs|, i requires 0 <= i < |vs| => RewriteVolume(b, secretName, vs[i]))
  }

  function RewriteSpec(rule: Rule, b: Binding, current: string, secretName: string, s: PodSpec): PodSpec {
    PodSpec(RewriteVolumes(b, secretName, s.volumes),
            RewriteContainers(rule, b, current, secretName, s.containers),
            RewriteContainers(rule, b, current, secretName, s.initContainers),
            s.others)
  }

  /** What promotion turns a template into. */
  function Promoted(b: Binding, current: string, desired: string, secretName: string, t: Template): Template {
    t.(annotations := t.annotations[ANNOTATION_REVISION := desired],
       spec := RewriteSpec(Promotion, b, current, secretName, t.spec))
  }

  /** The template of the canary cloned from a workload. */
  function CanaryOf(b: Binding, current: string, desired: string, secretName: string, t: Template): Template {
    Template(map[LABEL_CANARY := "true", LABEL_TARGET := b.target],
             t.annotations[ANNOTATION_REVISION := desired],
             RewriteSpec(Canary, b, current, secretName, t.spec))
  }

  // ---------------------------------------------------------------- the rewriting in place

  /** A fetched copy of a template, whose lists are changed through pointers to their elements. */
  class PodTemplate {
    var labels: map<string, string>
    var annotations: map<string, string>
    const volumes: array<Volume>
    const containers: array<Container>
    const initContainers: array<Container>
    const others: string

    ghost predicate Valid()
    {
      containers != initContainers
    }

    ghost function Repr(): set<object>
    {
      {this, volumes, containers, initContainers}
    }

    function Value(): Template
      reads this, volumes, containers, initContainers
    {
      Template(labels, annotations, PodSpec(volumes[..], containers[..], initContainers[..], others))
    }

    /** A deep copy. */
    constructor (t: Template)
      ensures Valid() && fresh(Repr())
      ensures Value() == t
    {
      labels, annotations, others := t.labels, t.annotations, t.spec.others;
      volumes := new Volume[|t.spec.volumes|](i requires 0 <= i < |t.spec.volumes| => t.spec.volumes[i]);
      containers := new Container[|t.spec.containers|](i requires 0 <= i < |t.spec.containers| => t.spec.containers[i]);
      initContainers := new Container[|t.spec.initContainers|](
        i requires 0 <= i < |t.spec.initContainers| => t.spec.initContainers[i]);
      new;
      assert volumes[..] == t.spec.volumes && containers[..] == t.spec.containers && initContainers[..] == t.spec.initContainers;
    }

    method MutateVolumes(b: Binding, newSecretName: string)
      modifies volumes
      ensures volumes[..] == RewriteVolumes(b, newSecretName, old(volumes[..]))
    {
      if b.volumeName != "" {
        for i := 0 to volumes.Length
          invariant forall k :: 0 <= k < i ==> volumes[k] == RewriteVolume(b, newSecretName, old(volumes[k]))
          invariant forall k :: i <= k < volumes.Length ==> volumes[k] == old(volumes[k])
        {
          if volumes[i].name == b.volumeName {
            if volumes[i].secret.None? {
              volumes[i] := volumes[i].(secret := Some(SecretVolume("", "")));
            }
            volumes[i] := volumes[i].(secret := Some(volumes[i].secret.value.(secretName := newSecretName)));
          }
        }
      } else if b.envName == "" {
        for i := 0 to volumes.Length
          invariant forall k :: 0 <= k < i ==> volumes[k] == RewriteVolume(b, newSecretName, old(volumes[k]))
          invariant forall k :: i <= k < volumes.Length ==> volumes[k] == old(volumes[k])
        {
          if volumes[i].secret.Some? && MatchesVolume(b, volumes[i]) {
            volumes[i] := volumes[i].(secret := Some(volumes[i].secret.value.(secretName := newSecretName)));
          }
        }
      }
    }

    method Mutate(b: Binding, current: string, desired: string, newSecretName: string)
      requires Valid()
      modifies Repr()
      ensures Value() == Promoted(b, current, desired, newSecretName, old(Value()))
    {
      annotations := annotations[ANNOTATION_REVISION := desired];
      MutateVolumes(b, newSecretName);
      MutateContainers(Promotion, b, current, newSecretName, containers);
      MutateContainers(Promotion, b, current, newSecretName, initContainers);
    }

    method MutateForCanary(b: Binding, current: string, desired: string, newSecretName: string)
      requires Valid()
      modifies Repr()
      ensures Value() == CanaryOf(b, current, desired, newSecretName, old(Value()))
    {
      labels := map[LABEL_CANARY := "true", LABEL_TARGET := b.target];
      annotations := annotations[ANNOTATION_REVISION := desired];
      MutateVolumes(b, newSecretName);
      MutateContainers(Canary, b, current, newSecretName, containers);
      MutateContainers(Canary, b, current, newSecretName, initContainers);
    }
  }

  method MutateContainers(rule: Rule, b: Binding, current: string, newSecretName: string, cs: array<Container>)
    modifies cs
    ensures cs[..] == RewriteContainers(rule, b, current, newSecretName, old(cs[..]))
  {
    for i := 0 to cs.Length
      invariant forall k :: 0 <= k < i ==> cs[k] == RewriteContainer(rule, b, current, newSecretName, old(cs[k]))
      invariant forall k :: i <= k < cs.Length ==> cs[k] == old(cs[k])
    {
      if b.containerName != "" && cs[i].name != b.containerName {
        continue;
      }
      if b.envName != "" {
        var env := BindEnv(b, newSecretName, cs[i].env);
        assert env == RewriteEnv(rule, b, current, newSecretName, cs[i].env);
        assert cs[i].envFrom == RewriteEnvFrom(b, current, newSecretName, cs[i].envFrom);
        cs[i] := cs[i].(env := env);
      } else {
        var env := MatchEnv(rule, b, current, newSecretName, cs[i].env);
        var envFrom := MatchEnvFroms(b, current, newSecretName, cs[i].envFrom);
        cs[i] := cs[i].(env := env, envFrom := envFrom);
      }
    }
  }

  /** The explicit binding: overwrite every variable of that name, or append one. */
  method BindEnv(b: Binding, newSecretName: string, original: seq<EnvVar>) returns (env: seq<EnvVar>)
    requires b.envName != ""
    ensures forall rule, current :: env == RewriteEnv(rule, b, current, newSecretName, original)
  {
    env := original;
    var found := false;
    for j := 0 to |original|
      invariant |env| == |original|
      invariant forall k :: 0 <= k < j ==>
        env[k] == if original[k].name == b.envName then BoundEnv(b, newSecretName) else original[k]
      invariant forall k :: j <= k < |env| ==> env[k] == original[k]
      invariant found <==> exists k :: 0 <= k < j && original[k].name == b.envName
    {
      if env[j].name == b.envName {
        found := true;
        env := env[j := env[j].(value := "", from := Some(EnvSource(Some(KeySelector(newSecretName, b.objectName, None)), "")))];
      }
    }
    if !found {
      env := env + [EnvVar(b.envName, "", Some(EnvSource(Some(KeySelector(newSecretName, b.objectName, None)), "")))];
    }
  }

  /** The implicit binding: rename the matching references only. */
  method MatchEnv(rule: Rule, b: Binding, current: string, newSecretName: string, original: seq<EnvVar>)
    returns (env: seq<EnvVar>)
    requires b.envName == ""
    ensures env == RewriteEnv(rule, b, current, newSecretName, original)
  {
    env := original;
    for j := 0 to |original|
      invariant |env| == |original|
      invariant forall k :: 0 <= k < j ==> env[k] == RewriteEnvVar(rule, b, current, newSecretName, original[k])
      invariant forall k :: j <= k < |env| ==> env[k] == original[k]
    {
      if RefersToSecret(env[j]) && MatchesEnv(rule, b, current, EnvRef(env[j])) {
        env := env[j := PointEnv(env[j], newSecretName)];
      }
    }
  }

  method MatchEnvFroms(b: Binding, current: string, newSecretName: string, original: seq<EnvFrom>)
    returns (fs: seq<EnvFrom>)
    requires b.envName == ""
    ensures fs == RewriteEnvFrom(b, current, newSecretName, original)
  {
    fs := original;
    for j := 0 to |original|
      invariant |fs| == |original|
      invariant forall k :: 0 <= k < j ==> fs[k] == RewriteEnvFromItem(b, current, newSecretName, original[k])
      invariant forall k :: j <= k < |fs| ==> fs[k] == original[k]
    {
      if fs[j].secret.Some? && MatchesEnvFrom(b, current, fs[j].secret.value.name) {
        fs := fs[j := fs[j].(secret := Some(fs[j].secret.value.(name := newSecretName)))];
      }
    }
  }

  method BuildCanaryFromTemplate(b: Binding, current: string, desired: string, newSecretName: string,
                                 t: Template) returns (canary: Template)
    ensures canary == CanaryOf(b, current, desired, newSecretName, t)
  {
    var copy := new PodTemplate(t);
    copy.MutateForCanary(b, current, desired, newSecretName);
    canary := copy.Value();
  }
}
