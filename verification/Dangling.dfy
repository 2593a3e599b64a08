/**
  Exactly which configurations can dangle: the rewriting reads VaultRef.ObjectName while the
  secrets are named after the resolved source, and production keeps a collected secret when the
  two do not fit.
 */
module Dangling {
  import opened Options
  import opened Naming
  import opened PodTemplate
  import opened TemplateLaws
  import opened Rotation
  import opened Safety
  import opened Progress

  /** The four reconciles of an undisturbed rotation without probes. */
  function Cycle(h: Revision): seq<Answers> {
    [Smooth(h), Smooth(h), Smooth(h), Smooth(h)]
  }

  // ---------------------------------------------------------------- a template that is rewritten once

  /** A single container that imports one secret. */
  function SpecWith(b: Binding, name: string): PodSpec {
    PodSpec([], [Container(b.containerName, [], [EnvFrom("", Some(SecretRef(name, None)), "")], "")], [], "")
  }

  function Importing(b: Binding, name: string): Template {
    Template(map[], map[], SpecWith(b, name))
  }

  lemma SpecRewritten(b: Binding, current: string, secretName: string, name: string)
    requires b.envName == ""
    ensures RewriteSpec(Promotion, b, current, secretName, SpecWith(b, name))
         == SpecWith(b, if MatchesEnvFrom(b, current, name) then secretName else name)
  {
    var c := SpecWith(b, name).containers[0];
    assert RewriteEnv(Promotion, b, current, secretName, c.env) == [];
    assert RewriteEnvFrom(b, current, secretName, c.envFrom) == [RewriteEnvFromItem(b, current, secretName, c.envFrom[0])];
    assert RewriteContainers(Promotion, b, current, secretName, [c]) == [RewriteContainer(Promotion, b, current, secretName, c)];
    assert RewriteContainers(Promotion, b, current, secretName, []) == [];
    assert RewriteVolumes(b, secretName, []) == [];
  }

  lemma SpecRefs(b: Binding, name: string, t: Template)
    requires t.spec == SpecWith(b, name)
    ensures Refs(t) == {name}
  {
    var c := SpecWith(b, name).containers[0];
    assert c.envFrom[0].secret.value.name == name;
    assert EnvFromRefs(c.envFrom) == {name} && EnvRefs(c.env) == {};
    assert ContainerRefs([c]) == {name} by {
      assert [c][0] == c;
      assert name in EnvRefs([c][0].env) + EnvFromRefs([c][0].envFrom);
    }
    assert ContainerRefs([]) == {} && VolumeRefs([]) == {};
  }

  // ---------------------------------------------------------------- names that do not match

  function Repeat(d: char): Revision
    requires IsHex(d)
  {
    seq(12, i => d)
  }

  /** At most one revision completes either of two prefixes to a given name. */
  lemma Avoid(a: string, b: string, name: string, d1: char, d2: char) returns (r: Revision)
    requires IsHex(d1) && IsHex(d2) && d1 != d2
    ensures r in {Repeat(d1), Repeat(d2)}
    ensures a + r != name && b + r != name
  {
    assert forall x: string, d: char :: IsHex(d) ==> |x + Repeat(d)| == |x| + 12 && (x + Repeat(d))[|x| + 0] == d;
    r := if a + Repeat(d1) != name && b + Repeat(d1) != name then Repeat(d1) else Repeat(d2);
  }

  lemma PrefixCancel(a: string, x: string, y: string)
    ensures HasPrefix(a + y, a + x) <==> HasPrefix(y, x)
    ensures a + x == a + y <==> x == y
  {
    assert (a + x)[|a|..] == x && (a + y)[|a|..] == y;
    if |x| <= |y| {
      assert (a + y)[..|a + x|] == a + y[..|x|];
    }
  }

  /** A hexadecimal revision cannot supply the hyphen that ends the expected prefix. */
  lemma HexCannotComplete(short: string, long: string, r: Revision)
    requires !HasPrefix(long + "-rev-", short + "-rev-")
    ensures !HasPrefix(long + "-rev-" + r, short + "-rev-")
  {
    var s, l := short + "-rev-", long + "-rev-" + r;
    assert forall i :: |long| + 5 <= i < |l| ==> l[i] == r[i - |long| - 5] && IsHex(l[i]);
    if |s| <= |long| + 5 {
      assert l[..|s|] == (long + "-rev-")[..|s|];
    } else {
      assert s[|s| - 1] == '-';
    }
  }

  lemma LegacyNameIsNotOwn(target: string, managed: string, r: Revision)
    ensures !HasPrefix(target + "-rev-" + r, RevisionPrefix(target, managed))
  {
    var own, name := RevisionPrefix(target, managed), target + "-rev-" + r;
    assert own[|target| + 1 + |managed|] == '-' && own[|target| + 5 + |managed|] == '-';
    assert name[|target|..|target| + 5] == "-rev-";
    assert forall i :: |target| + 5 <= i < |name| ==> name[i] == r[i - |target| - 5] && IsHex(name[i]);
    assert forall i :: |target| < i < |target| + 4 ==> name[i] == "-rev-"[i - |target|] && name[i] != '-';
  }

  /** A revision secret of an ill-fitting configuration is not found again. */
  lemma NotFoundAgain(p: PolicySpec, r1: Revision, current: Revision)
    requires !Steady(BindingOf(p), Managed(p))
    requires SecretOf(p, r1) != BindingOf(p).objectName
    requires SecretOf(p, r1) != p.target + "-" + BindingOf(p).objectName
    ensures !MatchesEnvFrom(BindingOf(p), current, SecretOf(p, r1))
  {
    var b, managed := BindingOf(p), Managed(p);
    HexCannotComplete(b.objectName, managed, r1);
    PrefixCancel(p.target + "-", b.objectName + "-rev-", managed + "-rev-" + r1);
    assert SecretOf(p, r1) == (p.target + "-") + (managed + "-rev-" + r1);
    assert RevisionPrefix(p.target, b.objectName) == (p.target + "-") + (b.objectName + "-rev-");
    assert HasPrefix(RevisionPrefix(p.target, b.objectName) + current, RevisionPrefix(p.target, b.objectName));
    assert |p.target + "-rev-" + current| == |p.target| + 5 + 12;
  }

  // ---------------------------------------------------------------- the run

  /** Every secret in the namespace is one the policy made. */
  predicate AllOwn(p: PolicySpec, secrets: map<string, Labels>) {
    forall n :: n in secrets ==>
      secrets[n].policy == p.name && secrets[n].target == p.target && n == SecretOf(p, secrets[n].revision)
  }

  /** Between rotations, with one import in the template. */
  predicate Resting(p: PolicySpec, s: State, current: string, name: string) {
    && StatusOk(p, s.status) && s.status.desired == "" && s.status.current == current
    && AllOwn(p, s.secrets)
    && s.template.spec == SpecWith(BindingOf(p), name)
  }

  lemma RestingRotation(p: PolicySpec, s: State, current: string, name: string, h: Revision)
    requires !IsRollout(p) && ResolveKind(p.kind).Some? && p.probes == [] && BindingOf(p).envName == ""
    requires Resting(p, s, current, name) && current != h
    ensures var s' := Run(p, s, Cycle(h));
      && Resting(p, s', h, if MatchesEnvFrom(BindingOf(p), current, name) then SecretOf(p, h) else name)
      && forall r :: r != h && r != current ==> SecretOf(p, r) !in s'.secrets
  {
    hide SpecWith, StatusOk, MatchesEnvFrom, BindingOf, RewriteSpec, Run, Managed;
    OneRotation(p, s, h, Smooth(h));
    SpecRewritten(BindingOf(p), current, SecretOf(p, h), name);
    var s' := Run(p, s, Cycle(h));
    forall r | r != h && r != current ensures SecretOf(p, r) !in s'.secrets {
      var all := Materialized(p, s.secrets, h);
      if SecretOf(p, r) in all {
        SecretOfInjective(p, r, all[SecretOf(p, r)].revision);
      }
    }
  }

  /** A revision to start from, whose old-style name matches nothing while no revision is current. */
  lemma FirstRevision(p: PolicySpec) returns (r: Revision)
    ensures r in {Repeat('1'), Repeat('2')}
    ensures !MatchesEnvFrom(BindingOf(p), "", p.target + "-rev-" + r)
  {
    var b := BindingOf(p);
    r := Avoid(p.target + "-rev-", "rev-", b.objectName, '1', '2');
    LegacyNameIsNotOwn(p.target, b.objectName, r);
    PrefixCancel(p.target + "-", "rev-" + r, b.objectName);
    assert p.target + "-rev-" + r == p.target + "-" + ("rev-" + r);
  }

  lemma SecondRevision(p: PolicySpec) returns (r: Revision)
    ensures r in {Repeat('3'), Repeat('4')}
    ensures SecretOf(p, r) != BindingOf(p).objectName && SecretOf(p, r) != p.target + "-" + BindingOf(p).objectName
  {
    var b := BindingOf(p);
    r := Avoid(RevisionPrefix(p.target, Managed(p)), Managed(p) + "-rev-", b.objectName, '3', '4');
    PrefixCancel(p.target + "-", Managed(p) + "-rev-" + r, b.objectName);
    assert SecretOf(p, r) == p.target + "-" + (Managed(p) + "-rev-" + r);
  }

  lemma RepeatsDiffer(d: char, e: char)
    requires IsHex(d) && IsHex(e) && d != e
    ensures Repeat(d) != Repeat(e)
  {
    assert Repeat(d)[0] == d && Repeat(e)[0] == e;
  }

  /** Four undisturbed rotations, each to a revision of its own. */
  ghost predicate FourRotations(cs: seq<Answers>) {
    exists r0: Revision, r1: Revision, r2: Revision, r3: Revision :: RotatesThrough(cs, r0, r1, r2, r3)
  }

  predicate RotatesThrough(cs: seq<Answers>, r0: Revision, r1: Revision, r2: Revision, r3: Revision) {
    && cs == (Cycle(r0) + Cycle(r1)) + (Cycle(r2) + Cycle(r3))
    && r0 != r1 && r0 != r2 && r0 != r3 && r1 != r2 && r1 != r3 && r2 != r3
  }

  /** Two rotations: the second, with the first current, puts its own secret in place of the old-style name. */
  lemma Entrap(p: PolicySpec) returns (s: State, s1: State, r0: Revision, r1: Revision)
    requires !IsRollout(p) && ResolveKind(p.kind).Some? && p.probes == [] && !Steady(BindingOf(p), Managed(p))
    ensures Initial(p, s) && s1 == Run(p, s, Cycle(r0) + Cycle(r1))
    ensures r0 in {Repeat('1'), Repeat('2')} && r1 in {Repeat('3'), Repeat('4')}
    ensures SecretOf(p, r1) != BindingOf(p).objectName && SecretOf(p, r1) != p.target + "-" + BindingOf(p).objectName
    ensures Resting(p, s1, r1, SecretOf(p, r1))
  {
    hide Run, Step, StatusOk, SpecWith, MatchesEnvFrom, Managed, BindingOf, SecretOf, OwnRevisions, Cycle, Resting,
        IsRollout;
    r0 := FirstRevision(p);
    r1 := SecondRevision(p);
    RepeatsDiffer('1', '3');
    RepeatsDiffer('1', '4');
    RepeatsDiffer('2', '3');
    RepeatsDiffer('2', '4');
    var name := p.target + "-rev-" + r0;
    s := OldStyleStart(p, r0);
    RestingRotation(p, s, "", name, r0);
    assert Resting(p, Run(p, s, Cycle(r0)), r0, name);
    CurrentRevisionMatches(p, r0);
    RestingRotation(p, Run(p, s, Cycle(r0)), r0, name, r1);
    RunConcat(p, s, Cycle(r0), Cycle(r1));
    s1 := Run(p, s, Cycle(r0) + Cycle(r1));
  }

  lemma CurrentRevisionMatches(p: PolicySpec, r: Revision)
    ensures MatchesEnvFrom(BindingOf(p), r, p.target + "-rev-" + r)
  {
    hide BindingOf;
    assert BindingOf(p).target == p.target by {
      BindingTarget(p);
    }
  }

  /** A new policy whose production imports a secret of the old-style name. */
  lemma OldStyleStart(p: PolicySpec, r0: Revision) returns (s: State)
    ensures Initial(p, s) && Resting(p, s, "", p.target + "-rev-" + r0)
    ensures s == StartWith(Importing(BindingOf(p), p.target + "-rev-" + r0))
  {
    var b, name := BindingOf(p), p.target + "-rev-" + r0;
    s := StartWith(Importing(b, name));
    SpecRefs(b, name, s.template);
    LegacyNameIsNotOwn(p.target, Managed(p), r0);
  }

  /**
    For every ill-fitting configuration there is a run of four undisturbed rotations after which
    production imports a secret that collection has deleted.
   */
  lemma IllFittingDangles(p: PolicySpec) returns (s: State, cs: seq<Answers>, lost: string)
    requires !IsRollout(p) && ResolveKind(p.kind).Some? && p.probes == [] && !Steady(BindingOf(p), Managed(p))
    ensures Initial(p, s) && FourRotations(cs)
    ensures lost in OwnRevisions(p, Run(p, s, cs).template) && lost !in Run(p, s, cs).secrets
  {
    var s1, r0, r1;
    s, s1, r0, r1 := Entrap(p);
    var r2, r3 := Repeat('5'), Repeat('6');
    RepeatsDiffer('1', '3');
    RepeatsDiffer('1', '4');
    RepeatsDiffer('2', '3');
    RepeatsDiffer('2', '4');
    RepeatsDiffer('1', '5');
    RepeatsDiffer('2', '5');
    RepeatsDiffer('1', '6');
    RepeatsDiffer('2', '6');
    RepeatsDiffer('3', '5');
    RepeatsDiffer('3', '6');
    RepeatsDiffer('4', '5');
    RepeatsDiffer('4', '6');
    RepeatsDiffer('5', '6');
    lost := SecretOf(p, r1);
    NotFoundAgain(p, r1, r1);
    NotFoundAgain(p, r1, r2);
    RestingRotation(p, s1, r1, lost, r2);
    RestingRotation(p, Run(p, s1, Cycle(r2)), r2, lost, r3);
    cs := (Cycle(r0) + Cycle(r1)) + (Cycle(r2) + Cycle(r3));
    assert RotatesThrough(cs, r0, r1, r2, r3);
    RunConcat(p, s, Cycle(r0) + Cycle(r1), Cycle(r2) + Cycle(r3));
    RunConcat(p, s1, Cycle(r2), Cycle(r3));
    SpecRefs(BindingOf(p), lost, Run(p, s, cs).template);
  }

  // ---------------------------------------------------------------- exactly when

  /** No policy of this configuration ever dangles, from any initial state and in any run. */
  ghost predicate NeverDangles(p: PolicySpec) {
    forall q, s, cs :: SameConfiguration(p, q) && !IsRollout(q) && Initial(q, s) ==> NoDangling(q, Run(q, s, cs))
  }

  /** A configuration is safe if and only if a revision secret's name fits what the rewriting looks for. */
  lemma NeverDanglesIffSteady(p: PolicySpec)
    ensures NeverDangles(p) <==> Steady(BindingOf(p), Managed(p))
  {
    if Steady(BindingOf(p), Managed(p)) {
      forall q, s, cs | SameConfiguration(p, q) && !IsRollout(q) && Initial(q, s) ensures NoDangling(q, Run(q, s, cs)) {
        NoDanglingReference(q, s, cs);
      }
    } else {
      var q := p.(kind := "Deployment", probes := []);
      var s, cs, lost := IllFittingDangles(q);
      assert SameConfiguration(p, q) && !NoDangling(q, Run(q, s, cs));
    }
  }

  /** A policy in the deprecated form always fits, and so never dangles. */
  lemma LegacyPoliciesNeverDangle(p: PolicySpec)
    requires p.source.source.None? && p.source.vaultRef.objectName != ""
    ensures NeverDangles(p)
  {
    Policy.LegacyObjectName(p.source);
    NeverDanglesIffSteady(p);
  }

  /**
    A policy that names its secret in the source alone fits only under an explicit variable, or if
    that name happens to complete the hyphens of "-rev-".
   */
  lemma SourceOnlyPoliciesAreNot(p: PolicySpec)
    requires p.source.source.Some? && p.source.vaultRef.objectName == ""
    ensures Steady(BindingOf(p), Managed(p))
       <==> BindingOf(p).envName != "" || Managed(p) == "" || Managed(p) == "-rev" || HasPrefix(Managed(p), "-rev-")
  {
    var m := Managed(p);
    var full := m + "-rev-";
    assert "" + "-rev-" == "-rev-";
    if |m| >= 5 {
      assert full[..5] == m[..5];
    } else {
      assert full[|m|] == '-' && full[..|m|] == m;
      assert HasPrefix(full, "-rev-") ==> full[..5] == "-rev-" && full[|m|] == "-rev-"[|m|];
      assert HasPrefix(full, "-rev-") && |m| == 4 ==> m == full[..5][..4] == "-rev";
      assert m == "-rev" ==> full[..5] == "-rev-";
    }
  }
}
