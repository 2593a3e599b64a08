/**
  When the secrets that a Rollout mounts are safe from collection: as long as no Healthy report is
  taken for a revision that was only prepared, and exactly for the configurations that are safe for
  the other kinds of workload.
 */
module RolloutSafety {
  import opened Options
  import opened Naming
  import opened PodTemplate
  import opened TemplateLaws
  import opened Conditions
  import opened Rotation
  import opened Safety
  import opened Progress
  import opened Dangling
  import opened RolloutRuns

  /** The step takes a Healthy report at the observed generation; collection comes before the status write. */
  predicate TakesHealthy(p: PolicySpec, s: State, c: Answers) {
    && c.getPolicy && !Consults(p, s.status) && DetermineState(s.status) == At(RolloutProgressing)
    && c.rollout == Read(Some(s.generation), Healthy)
  }

  /** The desired revision is only prepared: the RolloutProgressing condition is an earlier cycle's. */
  predicate TakesStale(p: PolicySpec, s: State, c: Answers) {
    TakesHealthy(p, s, c) && Prepared(s.status)
  }

  predicate NeverStale(p: PolicySpec, s: State, cs: seq<Answers>)
    decreases |cs|
  {
    |cs| == 0 || (!TakesStale(p, s, cs[0]) && NeverStale(p, Step(p, s, cs[0]), cs[1..]))
  }

  // ---------------------------------------------------------------- what stays mounted

  /** Production mounts no own revision but the one it was last patched to. */
  predicate LastMounted(p: PolicySpec, s: State) {
    var n := |s.history.patches|;
    OwnRevisions(p, s.template) <= if n == 0 then {} else {SecretOf(p, s.history.patches[n - 1])}
  }

  ghost predicate SafeRollout(p: PolicySpec, s: State) {
    RolloutOk(p, s) && ExistenceOk(p, s) && LastMounted(p, s)
  }

  lemma ConsultKeepsSafe(p: PolicySpec, s: State, c: Answers)
    requires ExistenceOk(p, s) && LastMounted(p, s)
    ensures ExistenceOk(p, Consult(p, s, c)) && LastMounted(p, Consult(p, s, c))
  {
    hide Consult, SecretOf, BindingOf, Managed, OwnRefs, Covered, LabelsOk;
    ConsultMoves(p, s, c);
    ConsultKeepsNames(p, s, c);
    if c.upstream.Some? {
      MaterializingKeepsNames(p, s.secrets, c.upstream.value);
    }
  }

  lemma ProvisionKeepsSafe(p: PolicySpec, s: State, c: Answers)
    requires IsRollout(p) && Steady(BindingOf(p), Managed(p)) && ExistenceOk(p, s) && LastMounted(p, s)
    requires s.status.desired != ""
    ensures var s' := Provision(p, s, c);
      ExistenceOk(p, s') && LastMounted(p, s') && s'.secrets == s.secrets
  {
    hide With, Without, SecretOf, BindingOf, Managed, OwnRefs, Covered, LabelsOk, Promoted, Steady;
    var b, st := BindingOf(p), s.status;
    PromotionReplacesOwnRefs(b, Managed(p), st.current, st.desired, SecretOf(p, st.desired), s.template);
    ProvisionedRollout(p, s, c);
  }

  lemma ProvisionedRollout(p: PolicySpec, s: State, c: Answers)
    requires IsRollout(p)
    ensures var s' := Provision(p, s, c);
      && s'.secrets == s.secrets && s'.status.current == s.status.current && s'.status.desired == s.status.desired
      && (|| SameProduction(s, s')
          || (s'.template == Promoted(BindingOf(p), s.status.current, s.status.desired, SecretOf(p, s.status.desired), s.template)
              && s'.history.patches == s.history.patches + [s.status.desired]))
  {
    hide Set, Remove, SecretOf, BindingOf, Promoted, CanaryOf;
  }

  /** What a poll does to the secrets and to the names in the status. */
  lemma AwaitEffects(p: PolicySpec, s: State, c: Answers)
    ensures var s' := AwaitRollout(p, s, c); var healthy := c.rollout == Read(Some(s.generation), Healthy);
      && SameProduction(s, s')
      && s'.secrets == (if healthy then Collected(p, s.status, s.secrets, c) else s.secrets)
      && (|| (s'.status.current == s.status.current && s'.status.desired == s.status.desired)
          || (healthy && s'.status.current == s.status.desired && s'.status.desired == ""))
  {
    hide Set, Remove, Collected, Threshold;
  }

  /** A poll that is not stale collects nothing that production mounts. */
  lemma AwaitKeepsSafe(p: PolicySpec, s: State, c: Answers)
    requires RolloutOk(p, s) && ExistenceOk(p, s) && LastMounted(p, s)
    requires s.status.desired != "" && Progressing(s.status)
    requires c.rollout == Read(Some(s.generation), Healthy) ==> !Prepared(s.status)
    ensures ExistenceOk(p, AwaitRollout(p, s, c)) && LastMounted(p, AwaitRollout(p, s, c))
  {
    hide AwaitRollout, Collected, SecretOf, BindingOf, Managed, OwnRefs, Covered, LabelsOk, Threshold;
    AwaitEffects(p, s, c);
    CollectionKeepsNames(p, s.status, s.secrets, c);
    CollectionSpares(p, s.status, s.secrets, c, s.status.desired);
  }

  lemma StepKeepsSafe(p: PolicySpec, s: State, c: Answers)
    requires IsRollout(p) && Steady(BindingOf(p), Managed(p)) && SafeRollout(p, s) && !TakesStale(p, s, c)
    ensures SafeRollout(p, Step(p, s, c))
  {
    StepKeepsRollout(p, s, c);
    hide Consult, Provision, AwaitRollout, CleanedUp, Validate, ExistenceOk, LastMounted, Steady, Threshold, FirstTrue;
    if c.getPolicy {
      if Consults(p, s.status) {
        ConsultKeepsSafe(p, s, c);
      } else {
        RolloutPhase(p, s);
        if Progressing(s.status) {
          AwaitKeepsSafe(p, s, c);
        } else {
          ProvisionKeepsSafe(p, s, c);
        }
      }
    }
  }

  /** While a revision is desired, a Rollout policy is in one of two phases. */
  lemma RolloutPhase(p: PolicySpec, s: State)
    requires RolloutOk(p, s) && DetermineState(s.status) != Idle
    ensures s.status.desired != ""
    ensures DetermineState(s.status) == At(if Progressing(s.status) then RolloutProgressing else RevisionPrepared)
  {
  }

  lemma {:induction false} RunKeepsSafe(p: PolicySpec, s: State, cs: seq<Answers>)
    requires IsRollout(p) && Steady(BindingOf(p), Managed(p)) && SafeRollout(p, s) && NeverStale(p, s, cs)
    ensures SafeRollout(p, Run(p, s, cs))
    decreases |cs|
  {
    hide Step, SafeRollout, TakesStale, Steady;
    if |cs| > 0 {
      StepKeepsSafe(p, s, cs[0]);
      RunKeepsSafe(p, Step(p, s, cs[0]), cs[1..]);
    }
  }

  lemma InitialIsSafe(p: PolicySpec, s: State)
    requires Initial(p, s)
    ensures SafeRollout(p, s)
  {
    UntouchedIsCovered(BindingOf(p), Managed(p), s.template);
  }

  /**
    A fitting Rollout policy leaves no dangling reference in any run in which no Healthy report is
    taken for a revision that was only prepared, wherever other calls fail.
   */
  lemma NoDanglingRollout(p: PolicySpec, s: State, cs: seq<Answers>)
    requires IsRollout(p) && Steady(BindingOf(p), Managed(p)) && Initial(p, s) && NeverStale(p, s, cs)
    ensures NoDangling(p, Run(p, s, cs))
  {
    hide Run, Steady, NeverStale, RolloutOk, LastMounted, Covered;
    InitialIsSafe(p, s);
    RunKeepsSafe(p, s, cs);
  }

  lemma {:induction false} UntrippedIsNeverStale(p: PolicySpec, s: State, cs: seq<Answers>)
    requires IsRollout(p) && RolloutOk(p, s) && PhasesApart(s.status) && NeverTrips(p, s, cs)
    ensures NeverStale(p, s, cs)
    decreases |cs|
  {
    hide Step, RolloutOk;
    if |cs| > 0 {
      StepKeepsApart(p, s, cs[0]);
      StepKeepsRollout(p, s, cs[0]);
      UntrippedIsNeverStale(p, Step(p, s, cs[0]), cs[1..]);
      PolledIsProgressing(s.status);
    }
  }

  lemma PolledIsProgressing(st: Status)
    ensures DetermineState(st) == At(RolloutProgressing) && PhasesApart(st) ==> !Prepared(st)
  {
  }

  /** In particular, none is left while the breaker has never tripped. */
  lemma NoDanglingUntripped(p: PolicySpec, s: State, cs: seq<Answers>)
    requires IsRollout(p) && Steady(BindingOf(p), Managed(p)) && Initial(p, s) && NeverTrips(p, s, cs)
    ensures NoDangling(p, Run(p, s, cs))
  {
    hide Run, Steady, NeverTrips, NeverStale, NoDangling, OwnRevisions, LabelsOk;
    UntrippedIsNeverStale(p, s, cs);
    NoDanglingRollout(p, s, cs);
  }

  // ---------------------------------------------------------------- what a stale report destroys

  /** Collection takes the secret: it bears the policy's labels and a revision that is neither current nor desired. */
  predicate Taken(p: PolicySpec, s: State, c: Answers, n: string) {
    n in s.secrets && Collectable(p, s.status, s.secrets[n]) && c.listSecrets && n !in c.undeletable
  }

  /**
    The first stale report of a run leaves a dangling reference if and only if production mounts an
    own revision, neither current nor desired, whose secret the collection manages to delete.
   */
  lemma StaleReportDanglesIff(p: PolicySpec, s: State, cs: seq<Answers>, c: Answers)
    requires IsRollout(p) && Steady(BindingOf(p), Managed(p)) && Initial(p, s) && NeverStale(p, s, cs)
    requires TakesStale(p, Run(p, s, cs), c)
    ensures var s1 := Run(p, s, cs);
      !NoDangling(p, Step(p, s1, c)) <==> exists n :: n in OwnRevisions(p, s1.template) && Taken(p, s1, c, n)
  {
    hide Run, Steady, NeverStale, RolloutOk, OwnRevisions, Covered, SecretOf, LabelsOk;
    InitialIsSafe(p, s);
    RunKeepsSafe(p, s, cs);
    var s1 := Run(p, s, cs);
    StaleStep(p, s1, c);
    AwaitEffects(p, s1, c);
    CollectionKeepsNames(p, s1.status, s1.secrets, c);
  }

  lemma StaleStep(p: PolicySpec, s: State, c: Answers)
    requires TakesStale(p, s, c)
    ensures Step(p, s, c) == AwaitRollout(p, s, c) && c.rollout == Read(Some(s.generation), Healthy)
  {
    hide AwaitRollout;
  }

  // ---------------------------------------------------------------- the ill-fitting configurations

  /** A rotation of a Rollout: prepared, patched, and reported Healthy at the generation it then has. */
  function Turn(h: Revision, generation: nat): seq<Answers> {
    [Smooth(h), Smooth(h), Smooth(h).(rollout := Read(Some(generation), Healthy))]
  }

  /** Between rotations of a Rollout, with one import in the template. */
  predicate RestingRollout(p: PolicySpec, s: State, current: string, name: string) {
    && RolloutOk(p, s) && s.status.failures == 0 && s.status.desired == "" && s.status.current == current
    && AllOwn(p, s.secrets)
    && s.template.spec == SpecWith(BindingOf(p), name)
  }

  /** Prepared for h from rest. */
  predicate Preparing(p: PolicySpec, s: State, h: Revision, s1: State) {
    && RolloutOk(p, s1) && s1.status.failures == 0 && s1.status.desired == h && s1.status.current == s.status.current
    && Prepared(s1.status) && !Progressing(s1.status)
    && s1.template == s.template && s1.secrets == Materialized(p, s.secrets, h)
  }

  lemma TurnPrepares(p: PolicySpec, s: State, h: Revision)
    requires IsRollout(p) && RolloutOk(p, s) && s.status.failures == 0 && s.status.desired == "" && s.status.current != h
    ensures Preparing(p, s, h, Step(p, s, Smooth(h))) && !TakesStale(p, s, Smooth(h))
  {
    hide Set, Remove, Materialized, Advance, Threshold, FirstTrue, LastPatched;
    StepKeepsRollout(p, s, Smooth(h));
  }

  /** Patched to h and waiting for the report. */
  predicate Patching(p: PolicySpec, s: State, h: Revision, s2: State) {
    && RolloutOk(p, s2) && s2.status.failures == 0 && s2.status.desired == h && s2.status.current == s.status.current
    && !Prepared(s2.status) && Progressing(s2.status)
    && s2.template == Promoted(BindingOf(p), s.status.current, h, SecretOf(p, h), s.template)
    && s2.secrets == Materialized(p, s.secrets, h)
  }

  lemma TurnPatches(p: PolicySpec, s: State, h: Revision, s1: State)
    requires IsRollout(p) && Preparing(p, s, h, s1)
    ensures Patching(p, s, h, Step(p, s1, Smooth(h))) && !TakesStale(p, s1, Smooth(h))
  {
    hide Set, Remove, Materialized, Consult, AwaitRollout, Validate, Promoted, BindingOf, SecretOf, Threshold, LastPatched;
    assert Step(p, s1, Smooth(h)) == ProvisionRollout(p, s1, Smooth(h));
    StepKeepsRollout(p, s1, Smooth(h));
  }

  lemma TurnFinishes(p: PolicySpec, s: State, h: Revision, s2: State)
    requires IsRollout(p) && Patching(p, s, h, s2)
    ensures var c := Smooth(h).(rollout := Read(Some(s2.generation), Healthy)); var s3 := Step(p, s2, c);
      && RolloutOk(p, s3) && s3.status.failures == 0 && s3.status.desired == "" && s3.status.current == h
      && s3.template == s2.template
      && s3.secrets == Collected(p, s2.status, s2.secrets, c)
      && !TakesStale(p, s2, c)
  {
    hide Set, Remove, Materialized, Consult, Provision, Validate, Promoted, BindingOf, SecretOf, Threshold, LastPatched,
         Collected;
    var c := Smooth(h).(rollout := Read(Some(s2.generation), Healthy));
    assert Step(p, s2, c) == AwaitRollout(p, s2, c);
    StepKeepsRollout(p, s2, c);
  }

  lemma NeverStaleConcat(p: PolicySpec, s: State, cs: seq<Answers>, ds: seq<Answers>)
    ensures NeverStale(p, s, cs + ds) <==> NeverStale(p, s, cs) && NeverStale(p, Run(p, s, cs), ds)
    decreases |cs|
  {
    hide Step, TakesStale;
    if |cs| == 0 {
      assert cs + ds == ds;
    } else {
      assert (cs + ds)[0] == cs[0] && (cs + ds)[1..] == cs[1..] + ds;
      NeverStaleConcat(p, Step(p, s, cs[0]), cs[1..], ds);
    }
  }

  lemma ThreeSteps(p: PolicySpec, s: State, a: Answers, b: Answers, c: Answers)
    ensures Run(p, s, [a, b, c]) == Step(p, Step(p, Step(p, s, a), b), c)
    ensures NeverStale(p, s, [a, b, c]) <==>
      !TakesStale(p, s, a) && !TakesStale(p, Step(p, s, a), b) && !TakesStale(p, Step(p, Step(p, s, a), b), c)
  {
    hide Step, TakesStale;
    var s1 := Step(p, s, a);
    var s2 := Step(p, s1, b);
    assert [a, b, c][1..] == [b, c] && [b, c][1..] == [c] && [c][1..] == [];
    assert Run(p, s2, [c]) == Step(p, s2, c) && Run(p, s1, [b, c]) == Run(p, s2, [c]);
    assert NeverStale(p, s2, [c]) <==> !TakesStale(p, s2, c);
    assert NeverStale(p, s1, [b, c]) <==> !TakesStale(p, s1, b) && NeverStale(p, s2, [c]);
  }

  lemma RolloutTurn(p: PolicySpec, s: State, current: string, name: string, h: Revision) returns (cs: seq<Answers>)
    requires IsRollout(p) && BindingOf(p).envName == "" && RestingRollout(p, s, current, name) && current != h
    ensures exists generation: nat :: cs == Turn(h, generation)
    ensures NeverStale(p, s, cs)
    ensures var s' := Run(p, s, cs);
      && RestingRollout(p, s', h, if MatchesEnvFrom(BindingOf(p), current, name) then SecretOf(p, h) else name)
      && forall r :: r != h && r != current ==> SecretOf(p, r) !in s'.secrets
  {
    hide Run, Step, NeverStale, TakesStale, RolloutOk, SpecWith, BindingOf, RewriteSpec, MatchesEnvFrom, Managed, Prepared,
         Progressing;
    TurnPrepares(p, s, h);
    var s1 := Step(p, s, Smooth(h));
    TurnPatches(p, s, h, s1);
    var s2 := Step(p, s1, Smooth(h));
    TurnFinishes(p, s, h, s2);
    cs := Turn(h, s2.generation);
    ThreeSteps(p, s, cs[0], cs[1], cs[2]);
    assert cs == [cs[0], cs[1], cs[2]];
    SpecRewritten(BindingOf(p), current, SecretOf(p, h), name);
    CollectedTurn(p, s, h, s2);
  }

  lemma CollectedTurn(p: PolicySpec, s: State, h: Revision, s2: State)
    requires AllOwn(p, s.secrets) && s2.secrets == Materialized(p, s.secrets, h)
    requires s2.status.desired == h && s2.status.current == s.status.current
    ensures var left := Collected(p, s2.status, s2.secrets, Smooth(h));
      AllOwn(p, left) && forall r :: r != h && r != s.status.current ==> SecretOf(p, r) !in left
  {
    hide SecretOf;
    forall r | r != h && r != s.status.current ensures SecretOf(p, r) !in Collected(p, s2.status, s2.secrets, Smooth(h)) {
      if SecretOf(p, r) in s2.secrets {
        SecretOfInjective(p, r, s2.secrets[SecretOf(p, r)].revision);
      }
    }
  }

  lemma OldStyleRollout(p: PolicySpec, r0: Revision) returns (s: State)
    requires IsRollout(p)
    ensures Initial(p, s) && RestingRollout(p, s, "", p.target + "-rev-" + r0)
  {
    hide SpecWith;
    s := OldStyleStart(p, r0);
    assert s.secrets == map[];
  }

  /** The import after a rotation. */
  function Next(p: PolicySpec, current: string, name: string, h: Revision): string {
    if MatchesEnvFrom(BindingOf(p), current, name) then SecretOf(p, h) else name
  }

  lemma TwoTurns(p: PolicySpec, s: State, current: string, name: string, h1: Revision, h2: Revision) returns (cs: seq<Answers>)
    requires IsRollout(p) && BindingOf(p).envName == "" && RestingRollout(p, s, current, name)
    requires current != h1 && h1 != h2
    ensures NeverStale(p, s, cs)
    ensures var s' := Run(p, s, cs);
      && RestingRollout(p, s', h2, Next(p, h1, Next(p, current, name, h1), h2))
      && forall r :: r != h2 && r != h1 ==> SecretOf(p, r) !in s'.secrets
  {
    hide Run, NeverStale, RestingRollout, SecretOf, BindingOf, MatchesEnvFrom, Turn;
    var first := RolloutTurn(p, s, current, name, h1);
    var second := RolloutTurn(p, Run(p, s, first), h1, Next(p, current, name, h1), h2);
    cs := first + second;
    RunConcat(p, s, first, second);
    NeverStaleConcat(p, s, first, second);
  }

  lemma TrapRevisions(p: PolicySpec) returns (r0: Revision, r1: Revision, r2: Revision, r3: Revision)
    ensures r0 != r1 && r1 != r2 && r1 != r3 && r2 != r3
    ensures !MatchesEnvFrom(BindingOf(p), "", p.target + "-rev-" + r0)
    ensures SecretOf(p, r1) != BindingOf(p).objectName && SecretOf(p, r1) != p.target + "-" + BindingOf(p).objectName
  {
    hide BindingOf, SecretOf, MatchesEnvFrom;
    r0 := FirstRevision(p);
    r1 := SecondRevision(p);
    r2, r3 := Repeat('5'), Repeat('6');
    RepeatsDiffer('1', '3');
    RepeatsDiffer('1', '4');
    RepeatsDiffer('2', '3');
    RepeatsDiffer('2', '4');
    RepeatsDiffer('3', '5');
    RepeatsDiffer('4', '5');
    RepeatsDiffer('3', '6');
    RepeatsDiffer('4', '6');
    RepeatsDiffer('5', '6');
  }

  /** For every ill-fitting Rollout policy four rotations without a stale report lose a secret that production imports. */
  lemma IllFittingRolloutDangles(p: PolicySpec) returns (s: State, cs: seq<Answers>, lost: string)
    requires IsRollout(p) && !Steady(BindingOf(p), Managed(p))
    ensures Initial(p, s) && NeverStale(p, s, cs)
    ensures lost in OwnRevisions(p, Run(p, s, cs).template) && lost !in Run(p, s, cs).secrets
  {
    hide Run, NeverStale, SecretOf, BindingOf, MatchesEnvFrom, Managed, Initial, RestingRollout;
    var r0, r1, r2, r3 := TrapRevisions(p);
    var name := p.target + "-rev-" + r0;
    s := OldStyleRollout(p, r0);
    CurrentRevisionMatches(p, r0);
    var first := TwoTurns(p, s, "", name, r0, r1);
    lost := SecretOf(p, r1);
    NotFoundAgain(p, r1, r1);
    NotFoundAgain(p, r1, r2);
    var second := TwoTurns(p, Run(p, s, first), r1, lost, r2, r3);
    cs := first + second;
    RunConcat(p, s, first, second);
    NeverStaleConcat(p, s, first, second);
    StillImported(p, Run(p, s, cs), r3, r1);
  }

  lemma StillImported(p: PolicySpec, s: State, current: string, r: Revision)
    requires RestingRollout(p, s, current, SecretOf(p, r))
    ensures SecretOf(p, r) in OwnRevisions(p, s.template)
  {
    hide SpecWith, Managed;
    SpecRefs(BindingOf(p), SecretOf(p, r), s.template);
  }

  /** No Rollout policy of this configuration ever dangles in a run without a stale report. */
  ghost predicate NeverDanglesUnlessStale(p: PolicySpec) {
    forall q, s, cs :: SameConfiguration(p, q) && IsRollout(q) && Initial(q, s) && NeverStale(q, s, cs) ==>
      NoDangling(q, Run(q, s, cs))
  }

  /** For Rollouts, stale reports aside, a configuration is safe exactly when it is for the other kinds. */
  lemma RolloutNeverDanglesIffSteady(p: PolicySpec)
    ensures NeverDanglesUnlessStale(p) <==> Steady(BindingOf(p), Managed(p))
  {
    hide Run, NeverStale, NoDangling, Initial;
    if Steady(BindingOf(p), Managed(p)) {
      forall q, s, cs | SameConfiguration(p, q) && IsRollout(q) && Initial(q, s) && NeverStale(q, s, cs)
        ensures NoDangling(q, Run(q, s, cs))
      {
        NoDanglingRollout(q, s, cs);
      }
    } else {
      var q := p.(kind := "Rollout");
      var s, cs, lost := IllFittingRolloutDangles(q);
      LostDangles(q, Run(q, s, cs), lost);
      assert SameConfiguration(p, q);
    }
  }

  lemma LostDangles(p: PolicySpec, s: State, lost: string)
    requires lost in OwnRevisions(p, s.template) && lost !in s.secrets
    ensures !NoDangling(p, s)
  {
  }

  // ---------------------------------------------------------------- the breaker's count

  /** The step takes a report that the patched Rollout is Degraded. */
  predicate TakesDegraded(p: PolicySpec, s: State, c: Answers) {
    && c.getPolicy && !Consults(p, s.status) && DetermineState(s.status) == At(RolloutProgressing)
    && c.rollout == Read(Some(s.generation), Degraded)
  }

  /** The Degraded reports taken since the desired revision last changed, `n` of which came before. */
  function DegradationsSince(p: PolicySpec, s: State, cs: seq<Answers>, n: nat): nat
    decreases |cs|
  {
    if |cs| == 0 then n
    else
      var s' := Step(p, s, cs[0]);
      DegradationsSince(p, s', cs[1..],
        if s'.status.desired != s.status.desired then 0 else if TakesDegraded(p, s, cs[0]) then n + 1 else n)
  }

  lemma AwaitCounts(p: PolicySpec, s: State, c: Answers)
    requires s.status.desired != ""
    ensures var st, st' := s.status, AwaitRollout(p, s, c).status;
      if st'.desired != st.desired then st'.failures == 0
      else if c.rollout == Read(Some(s.generation), Degraded) && c.writeStatus then st'.failures == st.failures + 1
      else st'.failures == st.failures
  {
    hide Set, Remove, Collected, Threshold;
  }

  lemma ConsultCounts(p: PolicySpec, s: State, c: Answers)
    requires RolloutOk(p, s) && Consults(p, s.status)
    ensures var st, st' := s.status, Consult(p, s, c).status;
      if st'.desired != st.desired then st'.failures == 0 else st'.failures == st.failures
  {
    hide Consult, Set, Remove, DetermineState, RolloutOk;
    ConsultStatusMoves(p, s, c);
  }

  lemma ProvisionCounts(p: PolicySpec, s: State, c: Answers)
    ensures Provision(p, s, c).status.desired == s.status.desired && Provision(p, s, c).status.failures == s.status.failures
  {
    hide Set, Remove, SecretOf, BindingOf, Promoted, CanaryOf;
  }

  lemma RolloutStepCounts(p: PolicySpec, s: State, c: Answers)
    requires IsRollout(p) && RolloutOk(p, s)
    ensures var s' := Step(p, s, c);
      if s'.status.desired != s.status.desired then s'.status.failures == 0
      else if TakesDegraded(p, s, c) && c.writeStatus then s'.status.failures == s.status.failures + 1
      else s'.status.failures == s.status.failures
  {
    hide Consult, Provision, AwaitRollout, CleanedUp, Validate, Threshold, FirstTrue;
    if c.getPolicy {
      if Consults(p, s.status) {
        ConsultCounts(p, s, c);
      } else {
        RolloutPhase(p, s);
        AwaitCounts(p, s, c);
        ProvisionCounts(p, s, c);
      }
    }
  }

  lemma {:induction false} DegradationsAreKept(p: PolicySpec, s: State, cs: seq<Answers>, n: nat)
    requires IsRollout(p) && RolloutOk(p, s) && s.status.failures <= n
    ensures Run(p, s, cs).status.failures <= DegradationsSince(p, s, cs, n)
    ensures AllWritten(cs) && s.status.failures == n ==> Run(p, s, cs).status.failures == DegradationsSince(p, s, cs, n)
    decreases |cs|
  {
    hide Step, TakesDegraded, RolloutOk;
    if |cs| > 0 {
      RolloutStepCounts(p, s, cs[0]);
      StepKeepsRollout(p, s, cs[0]);
      var s' := Step(p, s, cs[0]);
      var next := if s'.status.desired != s.status.desired then 0 else if TakesDegraded(p, s, cs[0]) then n + 1 else n;
      DegradationsAreKept(p, s', cs[1..], next);
    }
  }

  /**
    For a Rollout policy ConsecutiveFailures is the number of Degraded reports since DesiredRevision
    was last set when every status write succeeds, and never more than that; it never passes the
    threshold, and the breaker is open exactly at the threshold.
   */
  lemma RolloutBreakerAccounting(p: PolicySpec, s: State, cs: seq<Answers>)
    requires IsRollout(p) && Initial(p, s)
    ensures var st := Run(p, s, cs).status;
      && 0 <= st.failures <= Threshold(p)
      && st.failures <= DegradationsSince(p, s, cs, 0)
      && (AllWritten(cs) ==> st.failures == DegradationsSince(p, s, cs, 0))
      && (Tripped(st) <==> st.failures == Threshold(p))
  {
    hide Run, DegradationsSince, OwnRevisions, LabelsOk;
    RunKeepsRollout(p, s, cs);
    DegradationsAreKept(p, s, cs, 0);
  }
}
