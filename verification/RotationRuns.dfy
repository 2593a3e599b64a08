/**
  What any number of rotations leaves of the production template and of the revision secrets.
 */
module RotationRuns {
  import opened PodTemplate
  import opened TemplateLaws
  import opened Rotation
  import opened Safety
  import Namespace

  // ---------------------------------------------------------------- the template

  /** The revisions of the status are hashes, or there is none. */
  predicate RevisionsOk(st: Status) {
    InUse(st.current) && InUse(st.desired)
  }

  lemma StepKeepsRevisions(p: PolicySpec, s: State, c: Answers)
    requires RevisionsOk(s.status)
    ensures RevisionsOk(Step(p, s, c).status)
  {
    hide Step;
    Namespace.SecretMoves(p, s, c);
  }

  /** The template of the desired revision, made from the one that is there. */
  function PatchedTemplate(p: PolicySpec, s: State): Template {
    Promoted(BindingOf(p), s.status.current, s.status.desired, SecretOf(p, s.status.desired), s.template)
  }

  predicate PatchMove(p: PolicySpec, s: State, s': State) {
    || SameProduction(s, s')
    || (s'.template == PatchedTemplate(p, s) && s'.history.patches == s.history.patches + [s.status.desired])
  }

  lemma ProvisionPatches(p: PolicySpec, s: State, c: Answers)
    ensures PatchMove(p, s, Provision(p, s, c))
  {
    hide With, Without, CanaryOf, Promoted, BindingOf, SecretOf, ResolveKind;
  }

  lemma AwaitPatches(p: PolicySpec, s: State, c: Answers)
    ensures SameProduction(s, AwaitRollout(p, s, c))
  {
    hide With, Without, Collected, Threshold;
  }

  /** Of whatever kind the workload is, a step leaves production alone or patches it to the desired revision. */
  lemma StepPatches(p: PolicySpec, s: State, c: Answers)
    ensures PatchMove(p, s, Step(p, s, c))
  {
    hide Consult, Provision, Validate, AwaitRollout, CleanedUp, Promoted, BindingOf, SecretOf;
    ConsultMoves(p, s, c);
    ProvisionPatches(p, s, c);
    AwaitPatches(p, s, c);
    ValidateMoves(p, s, c);
    CleanupKeepsStatus(p, s, c);
  }

  /** The template is the original, or one rotation of the original to the last patched revision. */
  ghost predicate RotatedOnce(p: PolicySpec, t: Template, s: State) {
    var n := |s.history.patches|;
    if n == 0 then s.template == t
    else exists current :: InUse(current) && s.template == OneTurn(p, current, s.history.patches[n - 1], t)
  }

  function OneTurn(p: PolicySpec, current: string, revision: string, t: Template): Template {
    Promoted(BindingOf(p), current, revision, SecretOf(p, revision), t)
  }

  lemma StepKeepsRotated(p: PolicySpec, t: Template, s: State, c: Answers)
    requires Steady(BindingOf(p), Managed(p)) && Untangled(BindingOf(p), t)
    requires RevisionsOk(s.status) && RotatedOnce(p, t, s)
    ensures RotatedOnce(p, t, Step(p, s, c))
  {
    hide Step, Promoted, Steady, Untangled, Managed;
    StepPatches(p, s, c);
    var s', st := Step(p, s, c), s.status;
    if !SameProduction(s, s') {
      var n := |s.history.patches|;
      assert s'.history.patches[n] == st.desired;
      if n > 0 {
        var current :| InUse(current) && s.template == OneTurn(p, current, s.history.patches[n - 1], t);
        BindingTarget(p);
        UntangledForgets(BindingOf(p), Managed(p), current, s.history.patches[n - 1], st.current, st.desired, t);
      }
      assert s'.template == OneTurn(p, st.current, st.desired, t);
    }
  }

  lemma {:induction false} RunKeepsRotated(p: PolicySpec, t: Template, s: State, cs: seq<Answers>)
    requires Steady(BindingOf(p), Managed(p)) && Untangled(BindingOf(p), t)
    requires RevisionsOk(s.status) && RotatedOnce(p, t, s)
    ensures RotatedOnce(p, t, Run(p, s, cs))
    decreases |cs|
  {
    hide Step, RotatedOnce, RevisionsOk, Steady, Untangled;
    if |cs| > 0 {
      StepKeepsRotated(p, t, s, cs[0]);
      StepKeepsRevisions(p, s, cs[0]);
      RunKeepsRotated(p, t, Step(p, s, cs[0]), cs[1..]);
    }
  }

  /**
    In any run of a fitting policy, for any kind of workload and whichever calls fail, production
    is the original template or one rotation of it to the last patched revision; no earlier
    rotation shows.
   */
  lemma ProductionIsRotatedOnce(p: PolicySpec, s: State, cs: seq<Answers>)
    requires Initial(p, s) && Steady(BindingOf(p), Managed(p)) && Untangled(BindingOf(p), s.template)
    ensures RotatedOnce(p, s.template, Run(p, s, cs))
  {
    hide Run, Steady, Untangled;
    RunKeepsRotated(p, s.template, s, cs);
  }

  // ---------------------------------------------------------------- the secrets

  /**
    After a promotion whose list and deletes succeed, the secrets that bear the policy's labels are
    at most two, those of the revision before and of the new one; and both exist.
   */
  lemma AtMostTwoRemain(p: PolicySpec, s: State, cs: seq<Answers>, c: Answers)
    requires !IsRollout(p) && Initial(p, s) && Promotes(p, Run(p, s, cs), c) && c.listSecrets && c.undeletable == {}
    ensures var s1 := Run(p, s, cs); var left := Step(p, s1, c).secrets;
      && (forall n :: n in left && Namespace.Owned(p, left[n]) ==>
            n == SecretOf(p, s1.status.desired) || n == SecretOf(p, s1.status.current))
      && Named(p, left, s1.status.current) && SecretOf(p, s1.status.desired) in left
  {
    hide Run, Step, SecretOf;
    var s1 := Run(p, s, cs);
    RunKeepsNames(p, s, cs);
    RunKeepsStatus(p, s, cs);
    PhaseIsTheCondition(s1.status);
    ClusterMoves(p, s1, c);
    CollectionKeepsNames(p, s1.status, s1.secrets, c);
  }
}
