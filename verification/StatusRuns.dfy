/**
  What the stored status tells a reader, in every state a run can reach and for every kind of
  workload.
 */
module StatusRuns {
  import opened Options
  import opened PodTemplate
  import opened Conditions
  import opened Rotation
  import opened Safety
  import opened Progress
  import opened RolloutRuns
  import RolloutSafety

  // ---------------------------------------------------------------- which phase is read

  /** The conditions that name a phase, in the order in which they are looked for. */
  const PHASE_ORDER := [RolledBack, Validating, RolloutProgressing, CanaryProvisioning, RevisionPrepared]

  /** The condition is there; the first of the order has to be true as well. */
  predicate Shows(st: Status, t: ConditionType) {
    exists i :: 0 <= i < |st.conditions| && FirstOf(st.conditions, t, i) && (t == RolledBack ==> st.conditions[i].status == True)
  }

  predicate FirstOf(cs: seq<Condition>, t: ConditionType, i: nat) {
    i < |cs| && cs[i].kind == t && forall k :: 0 <= k < i ==> cs[k].kind != t
  }

  lemma {:induction false} FindIsFirst(cs: seq<Condition>, t: ConditionType)
    ensures Find(cs, t).Some? <==> exists i :: 0 <= i < |cs| && FirstOf(cs, t, i)
    ensures forall i :: 0 <= i < |cs| && FirstOf(cs, t, i) ==> Find(cs, t) == Some(cs[i].status)
  {
    if |cs| > 0 {
      var rest := cs[1..];
      FindIsFirst(rest, t);
      if cs[0].kind == t {
        assert FirstOf(cs, t, 0);
      } else {
        assert forall k :: 0 < k < |cs| ==> cs[k] == rest[k - 1];
        assert forall k :: 0 <= k < |rest| ==> rest[k] == cs[k + 1];
        assert forall i :: 0 <= i < |rest| && FirstOf(rest, t, i) ==> FirstOf(cs, t, i + 1);
        forall i | 0 <= i < |cs| && FirstOf(cs, t, i) ensures i > 0 && FirstOf(rest, t, i - 1) {
        }
      }
    }
  }

  lemma ShowsIs(st: Status, t: ConditionType)
    ensures Shows(st, t) <==> if t == RolledBack then IsTrue(st.conditions, t) else Has(st.conditions, t)
  {
    FindIsFirst(st.conditions, t);
  }

  /** None of the first n conditions of the order shows. */
  predicate ShowsNone(st: Status, n: nat) {
    n <= |PHASE_ORDER| && forall m :: 0 <= m < n ==> !Shows(st, PHASE_ORDER[m])
  }

  /** None of the first i conditions of the list is true. */
  predicate NoneTrue(cs: seq<Condition>, i: nat) {
    i <= |cs| && forall k :: 0 <= k < i ==> cs[k].status != True
  }

  lemma {:induction false} FirstTrueIs(cs: seq<Condition>, i: nat)
    requires NoneTrue(cs, i)
    ensures i < |cs| && cs[i].status == True ==> FirstTrue(cs) == Some(cs[i].kind)
    ensures i == |cs| ==> FirstTrue(cs).None?
    decreases i
  {
    if i > 0 {
      FirstTrueIs(cs[1..], i - 1);
    }
  }

  /**
    For any status: without a desired revision the machine is idle; else the first condition of the
    order that shows is the phase; else the first true condition is; and with none it starts over.
   */
  lemma FirstShownIsThePhase(st: Status, n: nat, i: nat)
    ensures DetermineState(st) == Idle <==> st.desired == ""
    ensures st.desired != "" && n < |PHASE_ORDER| && Shows(st, PHASE_ORDER[n]) && ShowsNone(st, n) ==>
      DetermineState(st) == At(PHASE_ORDER[n])
    ensures st.desired != "" && ShowsNone(st, |PHASE_ORDER|) && NoneTrue(st.conditions, i) ==>
      && (i < |st.conditions| && st.conditions[i].status == True ==> DetermineState(st) == At(st.conditions[i].kind))
      && (i == |st.conditions| ==> DetermineState(st) == At(RevisionPrepared))
  {
    hide Shows;
    forall t ensures Shows(st, t) <==> if t == RolledBack then IsTrue(st.conditions, t) else Has(st.conditions, t) {
      ShowsIs(st, t);
    }
    if NoneTrue(st.conditions, i) {
      FirstTrueIs(st.conditions, i);
    }
    assert PHASE_ORDER[0] == RolledBack && PHASE_ORDER[1] == Validating && PHASE_ORDER[2] == RolloutProgressing
      && PHASE_ORDER[3] == CanaryProvisioning && PHASE_ORDER[4] == RevisionPrepared;
  }

  // ---------------------------------------------------------------- Promoting

  /** Promoting is there, and true, exactly when the policy rests with a revision in use. */
  predicate PromotingTells(st: Status) {
    Find(st.conditions, Promoting) == if st.desired == "" && st.current != "" then Some(True) else None
  }

  lemma ConsultTells(p: PolicySpec, s: State, c: Answers)
    requires PromotingTells(s.status)
    ensures PromotingTells(Consult(p, s, c).status)
  {
    hide Consult;
    ConsultStatusMoves(p, s, c);
  }

  lemma ProvisionTells(p: PolicySpec, s: State, c: Answers)
    requires PromotingTells(s.status)
    ensures PromotingTells(Provision(p, s, c).status)
  {
    hide CanaryOf, Promoted, BindingOf, SecretOf, ResolveKind;
  }

  lemma AwaitTells(p: PolicySpec, s: State, c: Answers)
    requires PromotingTells(s.status) && s.status.desired != ""
    ensures PromotingTells(AwaitRollout(p, s, c).status)
  {
    hide Collected, Threshold;
  }

  lemma ValidateTells(p: PolicySpec, s: State, c: Answers)
    requires PromotingTells(s.status) && s.status.desired != ""
    ensures PromotingTells(Validate(p, s, c).status)
  {
    hide Validate, RunProbes, ResolveKind, Threshold;
    ValidateStatusMoves(p, s, c);
  }

  lemma StepKeepsPromoting(p: PolicySpec, s: State, c: Answers)
    requires PromotingTells(s.status)
    ensures PromotingTells(Step(p, s, c).status)
  {
    hide Consult, Provision, Validate, AwaitRollout, CleanedUp, PromotingTells, Halted;
    if c.getPolicy {
      if Consults(p, s.status) {
        ConsultTells(p, s, c);
      } else {
        ProvisionTells(p, s, c);
        AwaitTells(p, s, c);
        ValidateTells(p, s, c);
        CleanupKeepsStatus(p, s, c);
        assert PromotingTells(Persist(s, With(Without(s.status, CanaryProvisioning), Validating, True), c).status) by {
          MarkingTells(s.status);
        }
      }
    }
  }

  lemma MarkingTells(st: Status)
    ensures PromotingTells(With(Without(st, CanaryProvisioning), Validating, True)) <==> PromotingTells(st)
  {
  }

  /**
    In every reachable state, of whatever kind the workload is, Promoting is true exactly when no
    rotation runs and a revision is in use, and absent otherwise.
   */
  lemma {:induction false} PromotingMeansSettled(p: PolicySpec, s: State, cs: seq<Answers>)
    requires PromotingTells(s.status)
    ensures PromotingTells(Run(p, s, cs).status)
    decreases |cs|
  {
    hide Step, PromotingTells;
    if |cs| > 0 {
      StepKeepsPromoting(p, s, cs[0]);
      PromotingMeansSettled(p, Step(p, s, cs[0]), cs[1..]);
    }
  }

  // ---------------------------------------------------------------- truth values

  /** Validating turns false with the first failure, unless that one opens the breaker; the other two are true. */
  predicate TruthOk(p: PolicySpec, st: Status) {
    && Find(st.conditions, RevisionPrepared) in {None, Some(True)}
    && Find(st.conditions, CanaryProvisioning) in {None, Some(True)}
    && (Has(st.conditions, Validating) ==>
          Find(st.conditions, Validating) == Some(if st.failures == 0 || Threshold(p) == 1 then True else False))
  }

  lemma StepKeepsTruth(p: PolicySpec, s: State, c: Answers)
    requires !IsRollout(p) && StatusOk(p, s.status) && TruthOk(p, s.status)
    ensures TruthOk(p, Step(p, s, c).status)
  {
    hide Step, RunProbes, ResolveKind, Threshold;
    PhaseIsTheCondition(s.status);
    StatusMoves(p, s, c);
  }

  lemma {:induction false} RunKeepsTruth(p: PolicySpec, s: State, cs: seq<Answers>)
    requires !IsRollout(p) && StatusOk(p, s.status) && TruthOk(p, s.status)
    ensures TruthOk(p, Run(p, s, cs).status)
    decreases |cs|
  {
    hide Step, StatusOk, TruthOk;
    if |cs| > 0 {
      StepKeepsStatus(p, s, cs[0]);
      StepKeepsTruth(p, s, cs[0]);
      RunKeepsTruth(p, Step(p, s, cs[0]), cs[1..]);
    }
  }

  /** For a patched Rollout the condition is false exactly after a degradation. */
  predicate ProgressTells(st: Status) {
    Progressing(st) ==> Find(st.conditions, RolloutProgressing) == Some(if st.failures == 0 then True else False)
  }

  /** Not halted, the count and the condition go together. */
  predicate CountTells(st: Status) {
    ProgressTells(st) && (!Progressing(st) ==> st.failures == 0)
  }

  lemma ConsultKeepsCount(p: PolicySpec, s: State, c: Answers)
    requires CountTells(s.status) && s.status.desired == "" && !Progressing(s.status) && !Tripped(s.status)
    ensures var st' := Consult(p, s, c).status; !Tripped(st') ==> CountTells(st')
  {
    hide Consult;
    ConsultStatusMoves(p, s, c);
  }

  lemma AwaitKeepsCount(p: PolicySpec, s: State, c: Answers)
    requires CountTells(s.status) && Progressing(s.status) && s.status.failures >= 0
    ensures var st' := AwaitRollout(p, s, c).status; !Tripped(st') ==> CountTells(st')
  {
    hide Collected, Threshold;
  }

  lemma ProvisionKeepsCount(p: PolicySpec, s: State, c: Answers)
    requires IsRollout(p) && CountTells(s.status) && !Progressing(s.status)
    ensures CountTells(Provision(p, s, c).status)
  {
    hide Promoted, BindingOf, SecretOf, CanaryOf;
  }

  lemma StepKeepsProgress(p: PolicySpec, s: State, c: Answers)
    requires IsRollout(p) && RolloutOk(p, s) && PhasesApart(s.status) && CountTells(s.status) && !Tripped(s.status)
    ensures var st' := Step(p, s, c).status; !Tripped(st') ==> CountTells(st')
  {
    hide Consult, Provision, AwaitRollout, CleanedUp, Validate, CountTells, LastPatched, Threshold, Set, Remove, FirstTrue;
    if c.getPolicy {
      if Consults(p, s.status) {
        ConsultKeepsCount(p, s, c);
      } else {
        RolloutSafety.RolloutPhase(p, s);
        if Progressing(s.status) {
          AwaitKeepsCount(p, s, c);
        } else {
          ProvisionKeepsCount(p, s, c);
        }
      }
    }
  }

  lemma {:induction false} RunKeepsProgress(p: PolicySpec, s: State, cs: seq<Answers>)
    requires IsRollout(p) && RolloutOk(p, s) && PhasesApart(s.status) && CountTells(s.status) && NeverTrips(p, s, cs)
    ensures CountTells(Run(p, s, cs).status)
    decreases |cs|
  {
    hide Step, RolloutOk, CountTells, PhasesApart;
    if |cs| > 0 {
      StepKeepsProgress(p, s, cs[0]);
      StepKeepsRollout(p, s, cs[0]);
      StepKeepsApart(p, s, cs[0]);
      RunKeepsProgress(p, Step(p, s, cs[0]), cs[1..]);
    }
  }

  /** The truth values in every reachable state; for a Rollout, while the breaker has not opened. */
  lemma ConditionsTell(p: PolicySpec, s: State, cs: seq<Answers>)
    requires Initial(p, s)
    ensures PromotingTells(Run(p, s, cs).status)
    ensures !IsRollout(p) ==> TruthOk(p, Run(p, s, cs).status)
    ensures IsRollout(p) && NeverTrips(p, s, cs) ==> ProgressTells(Run(p, s, cs).status)
  {
    hide Run, Threshold, OwnRevisions, LabelsOk;
    PromotingMeansSettled(p, s, cs);
    if !IsRollout(p) {
      RunKeepsTruth(p, s, cs);
    } else if NeverTrips(p, s, cs) {
      RunKeepsProgress(p, s, cs);
    }
  }

  // ---------------------------------------------------------------- the breaker and the kinds

  /** In every reachable state the breaker is open exactly at the policy's threshold, or at three if it sets none above zero. */
  lemma BreakerOpensAt(p: PolicySpec, s: State, cs: seq<Answers>)
    requires Initial(p, s)
    ensures var st := Run(p, s, cs).status;
      Tripped(st) <==> st.failures == match p.threshold case Some(n) => (if n >= 1 then n else 3) case None => 3
  {
    hide Run, OwnRevisions, LabelsOk;
    if IsRollout(p) {
      RunKeepsRollout(p, s, cs);
    } else {
      BreakerAccounting(p, s, cs);
    }
  }

  predicate Unprovisioned(t: Template, s: State) {
    && s.template == t && s.canary.None? && s.history.patches == [] && s.status.current == ""
    && !Has(s.status.conditions, Validating) && !Has(s.status.conditions, RolloutProgressing)
    && !Has(s.status.conditions, CanaryProvisioning)
  }

  lemma StepKeepsUnprovisioned(p: PolicySpec, t: Template, s: State, c: Answers)
    requires p.kind !in {"", "Deployment", "StatefulSet", "DaemonSet", "Rollout"}
    requires StatusOk(p, s.status) && Unprovisioned(t, s)
    ensures Unprovisioned(t, Step(p, s, c)) && StatusOk(p, Step(p, s, c).status)
  {
    hide Consult, AwaitRollout, Validate, CleanedUp, Threshold;
    StepKeepsStatus(p, s, c);
    PhaseIsTheCondition(s.status);
    ConsultMoves(p, s, c);
    ConsultStatusMoves(p, s, c);
    ConsultMakesNoCanary(p, s, c);
  }

  lemma ConsultMakesNoCanary(p: PolicySpec, s: State, c: Answers)
    requires s.canary.None?
    ensures Consult(p, s, c).canary.None?
  {
    hide Set, Remove, Materialized, Halted, Fresh;
  }

  /** A workload of a kind that is not supported is never touched, and gets no canary. */
  lemma {:induction false} UnsupportedKindIsLeftAlone(p: PolicySpec, t: Template, s: State, cs: seq<Answers>)
    requires p.kind !in {"", "Deployment", "StatefulSet", "DaemonSet", "Rollout"}
    requires StatusOk(p, s.status) && Unprovisioned(t, s)
    ensures Unprovisioned(t, Run(p, s, cs))
    decreases |cs|
  {
    hide Step, Unprovisioned, StatusOk;
    if |cs| > 0 {
      StepKeepsUnprovisioned(p, t, s, cs[0]);
      UnsupportedKindIsLeftAlone(p, t, Step(p, s, cs[0]), cs[1..]);
    }
  }

  /** A canary is only ever built for the kinds that are not rolled out by Argo, and they alone are waited for. */
  lemma KindDecides(p: PolicySpec)
    ensures IsRollout(p) <==> p.kind == "Rollout"
    ensures ResolveKind(p.kind).Some? <==> p.kind in {"", "Deployment", "StatefulSet", "DaemonSet", "Rollout"}
  {
  }
}
