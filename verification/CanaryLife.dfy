/**
  The canary's surroundings over whole runs: its network policy stands before anything is probed,
  and cleaning up removes what belongs to the policy and nothing else.
 */
module CanaryLife {
  import opened Options
  import opened Naming
  import opened PodTemplate
  import opened ProbeJob
  import opened Conditions
  import opened Rotation
  import opened Safety
  import opened Progress
  import opened CanaryRuns
  import opened JobProbes

  // ---------------------------------------------------------------- what a step does to canary, isolation and Jobs

  /** The breaker is found open without its condition, and no fresh revision shows. */
  predicate FindsHalted(p: PolicySpec, s: State, c: Answers) {
    && c.getPolicy && Halted(p, s.status) && !Tripped(s.status)
    && c.upstream.Some? && c.createSecret && !Fresh(s.status, c.upstream.value)
  }

  /** The steps that clean up: a promotion, a trip, a breaker found open, and a status that says rolled back. */
  predicate CleansUp(p: PolicySpec, s: State, c: Answers) {
    || Promotes(p, s, c)
    || (Fails(p, s, c) && s.status.failures + 1 >= Threshold(p))
    || FindsHalted(p, s, c)
    || (c.getPolicy && !Consults(p, s.status) && DetermineState(s.status) == At(RolledBack))
  }

  /** The step has both the canary and its network policy in place. */
  predicate PutsInPlace(p: PolicySpec, s: State, c: Answers) {
    && c.getPolicy && !Consults(p, s.status) && DetermineState(s.status) == At(RevisionPrepared)
    && !IsRollout(p) && ResolveKind(p.kind).Some? && c.fetchTarget && c.createCanary && c.createNetpol
  }

  /** The Jobs a step leaves before it cleans up. */
  function JobsSeen(p: PolicySpec, s: State, c: Answers): map<string, Job> {
    if Validates(p, s, c) then RunProbes(p, s, c).jobs else s.jobs
  }

  /** Cleaning up stops at the first deletion that fails: canary, network policy, then each of the policy's Jobs. */
  ghost predicate CleanedAway(p: PolicySpec, s: State, seen: map<string, Job>, c: Answers, s': State) {
    && s'.canary == (if c.deleteCanary then None else s.canary)
    && s'.isolated == (s.isolated && !(c.deleteCanary && c.deleteNetpol))
    && (forall n :: n in s'.jobs ==> n in seen && s'.jobs[n] == seen[n])
    && (forall n :: n in seen && n !in s'.jobs <==>
          n in seen && seen[n].policy == p.name && n !in c.undeletableJobs
          && c.deleteCanary && c.deleteNetpol && c.listJobs)
  }

  ghost predicate Surroundings(p: PolicySpec, s: State, c: Answers, s': State) {
    if CleansUp(p, s, c) then CleanedAway(p, s, JobsSeen(p, s, c), c, s')
    else
      && s'.isolated == (s.isolated || PutsInPlace(p, s, c))
      && s'.jobs == JobsSeen(p, s, c)
      && (s'.canary.None? ==> s.canary.None?)
      && (PutsInPlace(p, s, c) ==> s'.canary.Some?)
  }

  lemma CleanedUpIs(p: PolicySpec, s: State, c: Answers)
    ensures CleanedAway(p, s, s.jobs, c, CleanedUp(p, s, c))
  {
  }

  lemma ConsultSurroundings(p: PolicySpec, s: State, c: Answers)
    ensures var s' := Consult(p, s, c);
      if c.upstream.Some? && c.createSecret && !Fresh(s.status, c.upstream.value) && Halted(p, s.status) && !Tripped(s.status)
      then CleanedAway(p, s, s.jobs, c, s')
      else s'.canary == s.canary && s'.isolated == s.isolated && s'.jobs == s.jobs
  {
    hide CleanedUp, Set, Remove, Materialized, Halted, Fresh, CleanedAway;
    if c.upstream.Some? {
      var s1 := s.(secrets := Materialized(p, s.secrets, c.upstream.value));
      var s2 := Persist(s1, With(s1.status, CircuitBreakerTripped, True), c);
      CleanedUpIs(p, s2, c);
      SameCleaned(p, s, s2, s.jobs, c, CleanedUp(p, s2, c));
    }
  }

  lemma SameCleaned(p: PolicySpec, s: State, t: State, seen: map<string, Job>, c: Answers, s': State)
    requires t.canary == s.canary && t.isolated == s.isolated
    ensures CleanedAway(p, t, seen, c, s') <==> CleanedAway(p, s, seen, c, s')
  {
  }

  lemma ProvisionSurroundings(p: PolicySpec, s: State, c: Answers)
    ensures var s' := Provision(p, s, c);
      var inPlace := !IsRollout(p) && ResolveKind(p.kind).Some? && c.fetchTarget && c.createCanary && c.createNetpol;
      && s'.isolated == (s.isolated || inPlace) && s'.jobs == s.jobs
      && (s'.canary.None? ==> s.canary.None?) && (inPlace ==> s'.canary.Some?)
      && (s'.status != s.status && !IsRollout(p) ==> s'.isolated)
  {
    hide Set, Remove, Promoted, CanaryOf, BindingOf, SecretOf, ResolveKind;
  }

  lemma AwaitSurroundings(p: PolicySpec, s: State, c: Answers)
    ensures var s' := AwaitRollout(p, s, c); s'.canary == s.canary && s'.isolated == s.isolated && s'.jobs == s.jobs
  {
    hide Set, Remove, Collected, Threshold;
  }

  lemma ValidateSurroundings(p: PolicySpec, s: State, c: Answers)
    ensures var r, s' := RunProbes(p, s, c), Validate(p, s, c);
      if || (r.outcome.Passed? && ResolveKind(p.kind).Some? && c.fetchTarget && c.patch)
         || (r.outcome.Refused? && s.status.failures + 1 >= Threshold(p))
      then CleanedAway(p, s, r.jobs, c, s')
      else s'.canary == s.canary && s'.isolated == s.isolated && s'.jobs == r.jobs
  {
    hide CleanedUp, Set, Remove, RunProbes, Patched, Collected, ResolveKind, Threshold, CleanedAway;
    var r := RunProbes(p, s, c);
    var s1 := Probed(s, r);
    if r.outcome.Refused? {
      var st := s.status.(failures := s.status.failures + 1);
      var s2 := Persist(s1, With(st, CircuitBreakerTripped, True), c);
      CleanedUpIs(p, s2, c);
      SameCleaned(p, s, s2, r.jobs, c, CleanedUp(p, s2, c));
    } else if r.outcome.Passed? {
      PatchedSurroundings(p, s1);
      var s2 := Patched(p, s1);
      var s3 := s2.(secrets := Collected(p, s2.status, s2.secrets, c));
      var s4 := CleanedUp(p, s3, c);
      CleanedUpIs(p, s3, c);
      SameCleaned(p, s, s3, r.jobs, c, s4);
      StatusIsBeside(p, s, r.jobs, c, s4);
    }
  }

  lemma PatchedSurroundings(p: PolicySpec, s: State)
    ensures var s' := Patched(p, s); s'.canary == s.canary && s'.isolated == s.isolated && s'.jobs == s.jobs
  {
  }

  lemma StatusIsBeside(p: PolicySpec, s: State, seen: map<string, Job>, c: Answers, s': State)
    ensures forall st :: CleanedAway(p, s, seen, c, s'.(status := st)) <==> CleanedAway(p, s, seen, c, s')
  {
  }

  /** What every step, of whatever kind of workload, does to the canary, its network policy and the Jobs. */
  lemma StepSurroundings(p: PolicySpec, s: State, c: Answers)
    ensures Surroundings(p, s, c, Step(p, s, c))
  {
    hide Consult, Provision, Validate, AwaitRollout, CleanedUp, CleanedAway, Set, Remove, RunProbes, Fresh, ResolveKind,
         Threshold;
    ConsultSurroundings(p, s, c);
    ProvisionSurroundings(p, s, c);
    AwaitSurroundings(p, s, c);
    ValidateSurroundings(p, s, c);
    CleanedUpIs(p, s, c);
  }

  // ---------------------------------------------------------------- nothing is probed before it is isolated

  /** From its provisioning to the verdict a canary is isolated. */
  predicate Fenced(s: State) {
    (Has(s.status.conditions, CanaryProvisioning) || Has(s.status.conditions, Validating)) && !Tripped(s.status) ==>
      s.isolated
  }

  lemma ProvisionedIsFenced(p: PolicySpec, s: State, c: Answers)
    requires !IsRollout(p) && DetermineState(s.status) == At(RevisionPrepared) && c.getPolicy && !Consults(p, s.status)
    ensures Step(p, s, c).status != s.status ==> Step(p, s, c).isolated
  {
    hide Consult, Provision, Validate, AwaitRollout, CleanedUp;
    ProvisionSurroundings(p, s, c);
  }

  lemma StepKeepsFenced(p: PolicySpec, s: State, c: Answers)
    requires !IsRollout(p) && StatusOk(p, s.status) && Fenced(s) && c.writeStatus
    ensures Fenced(Step(p, s, c))
  {
    hide Consult, Provision, Validate, AwaitRollout, CleanedUp, CleanedAway, Set, Remove, RunProbes, ResolveKind, Threshold, Fresh;
    StatusMoves(p, s, c);
    WrittenMoves(p, s, c);
    PhaseIsTheCondition(s.status);
    StepSurroundings(p, s, c);
    if c.getPolicy && !Consults(p, s.status) && DetermineState(s.status) == At(RevisionPrepared) {
      ProvisionedIsFenced(p, s, c);
    }
  }

  lemma {:induction false} RunKeepsFenced(p: PolicySpec, s: State, cs: seq<Answers>)
    requires !IsRollout(p) && StatusOk(p, s.status) && Fenced(s) && AllWritten(cs)
    ensures Fenced(Run(p, s, cs)) && StatusOk(p, Run(p, s, cs).status)
    decreases |cs|
  {
    hide Step, Fenced, StatusOk;
    if |cs| > 0 {
      StepKeepsFenced(p, s, cs[0]);
      StepKeepsStatus(p, s, cs[0]);
      RunKeepsFenced(p, Step(p, s, cs[0]), cs[1..]);
    }
  }

  /** Whatever is probed in the run, on production's behalf, is a standing canary behind its network policy. */
  ghost predicate ProbesFenced(p: PolicySpec, s: State, cs: seq<Answers>) {
    forall c :: Validates(p, Run(p, s, cs), c) ==> Run(p, s, cs).isolated && Run(p, s, cs).canary.Some?
  }

  /** With status writes accepted, probes only ever run on a canary that stands and is isolated, whichever other calls fail. */
  lemma ValidationIsFenced(p: PolicySpec, s: State, cs: seq<Answers>)
    requires !IsRollout(p) && Initial(p, s) && AllWritten(cs)
    ensures Fenced(Run(p, s, cs)) && ProbesFenced(p, s, cs)
  {
    hide Run, Consults, Standing;
    InitialStands(p, s);
    RunKeepsFenced(p, s, cs);
    RunKeepsStanding(p, s, cs);
    var s1 := Run(p, s, cs);
    forall c | Validates(p, s1, c) ensures s1.isolated && s1.canary.Some? {
      StandsAtValidation(p, s1, c);
      FencedAtValidation(p, s1, c);
    }
  }

  lemma FencedAtValidation(p: PolicySpec, s: State, c: Answers)
    requires Validates(p, s, c) && StatusOk(p, s.status) && Fenced(s)
    ensures s.isolated
  {
    PhaseIsTheCondition(s.status);
  }

  /** No policy of this configuration ever probes what is not fenced, in any run with these faults. */
  ghost predicate AlwaysFenced(p: PolicySpec, lostWrites: bool) {
    forall q, s, cs :: SameConfiguration(p, q) && !IsRollout(q) && Initial(q, s) && (lostWrites || AllWritten(cs)) ==>
      ProbesFenced(q, s, cs)
  }

  /** A promotion whose status write is lost has removed canary and network policy, and is validated again. */
  lemma LostWriteUnfences(q: PolicySpec, s: State, h: Revision)
    requires !IsRollout(q) && ResolveKind(q.kind).Some? && q.probes == [] && Initial(q, s)
    ensures var c := Smooth(h); !ProbesFenced(q, s, [c, c, c] + [c.(writeStatus := false)])
  {
    hide Run, SecretOf, BindingOf, Promoted, OwnRevisions, CanaryOf, Step, RunProbes, CleanedAway;
    var c := Smooth(h);
    var lost := c.(writeStatus := false);
    ReachPromotion(q, s, h);
    var s3 := Run(q, s, [c, c, c]);
    RunSnoc(q, s, [c, c, c], lost);
    assert Promotes(q, s3, lost) && Promotes(q, s3, c);
    PromotionWithLostWrite(q, s3, lost);
    assert Validates(q, Step(q, s3, lost), c);
    assert Step(q, s3, lost).canary.None?;
  }

  /** Probes are always fenced if and only if no status write is ever lost. */
  lemma AlwaysFencedIff(p: PolicySpec, lostWrites: bool)
    ensures AlwaysFenced(p, lostWrites) <==> !lostWrites
  {
    hide ProbesFenced, Initial;
    if lostWrites {
      var q := p.(kind := "Deployment", probes := []);
      var h: Revision := "000000000000";
      BareIsInitial(q);
      LostWriteUnfences(q, StartWith(BARE), h);
      assert SameConfiguration(p, q);
    } else {
      forall q, s, cs | SameConfiguration(p, q) && !IsRollout(q) && Initial(q, s) && AllWritten(cs)
        ensures ProbesFenced(q, s, cs)
      {
        ValidationIsFenced(q, s, cs);
      }
    }
  }

  // ---------------------------------------------------------------- what is left behind

  /** Nothing the policy put up for a validation is there any more. */
  predicate LeftClean(p: PolicySpec, s: State) {
    s.canary.None? && !s.isolated && forall n :: n in s.jobs ==> s.jobs[n].policy != p.name
  }

  predicate DeletesEverything(c: Answers) {
    c.deleteCanary && c.deleteNetpol && c.listJobs && c.undeletableJobs == {}
  }

  /** A promotion, and a trip, whose deletions succeed leave no canary, no isolation and no Job of the policy. */
  lemma SettledIsClean(p: PolicySpec, s: State, c: Answers)
    requires Promotes(p, s, c) || (Fails(p, s, c) && s.status.failures + 1 >= Threshold(p))
    requires DeletesEverything(c)
    ensures LeftClean(p, Step(p, s, c))
  {
    hide Step, RunProbes;
    StepSurroundings(p, s, c);
    var s' := Step(p, s, c);
    forall n | n in s'.jobs ensures s'.jobs[n].policy != p.name {
      assert n in JobsSeen(p, s, c);
    }
  }

  /** The probes leave every Job alone but the one of the shared name. */
  lemma {:induction false} ProbesTouchOneJob(p: PolicySpec, st: Status, jobs: map<string, Job>, wins: set<Job>,
                                             c: Answers, i: nat, n: string)
    requires i <= |p.probes| && n != NameOf(p, st.desired)
    ensures var r := ProbesFrom(p, st, jobs, wins, c, i);
      (n in r.jobs <==> n in jobs) && (n in jobs ==> r.jobs[n] == jobs[n])
    decreases |p.probes| - i
  {
    hide JobName, SecretOf, JobFor, Verdict;
    if i < |p.probes| {
      var name := NameOf(p, st.desired);
      if p.probes[i].NetworkProbe? {
        ProbesTouchOneJob(p, st, jobs, wins, c, i + 1, n);
      } else if name in jobs {
        var rest := if AnswerOf(c, i).jobDelete then jobs - {name} else jobs;
        ProbesTouchOneJob(p, st, rest, wins + {jobs[name]}, c, i + 1, n);
      }
    }
  }

  predicate KeepsJob(s: State, s': State, n: string) {
    n in s.jobs ==> n in s'.jobs && s'.jobs[n] == s.jobs[n]
  }

  lemma StepKeepsOthersJob(p: PolicySpec, s: State, c: Answers, n: string)
    requires n in s.jobs && s.jobs[n].policy != p.name && n != NameOf(p, s.status.desired)
    ensures KeepsJob(s, Step(p, s, c), n)
  {
    hide Step, ProbesFrom, NameOf, CleansUp, SecretOf;
    StepSurroundings(p, s, c);
    if Validates(p, s, c) {
      ProbesTouchOneJob(p, s.status, s.jobs, s.history.jobWins, c, 0, n);
    }
  }

  /**
    In any run, of whatever kind of workload, a Job of another policy stays as it is, unless it has
    the very name the policy derives for one of its revisions.
   */
  lemma {:induction false} OthersJobsStay(p: PolicySpec, s: State, cs: seq<Answers>, n: string)
    requires n in s.jobs && s.jobs[n].policy != p.name && forall r :: n != NameOf(p, r)
    ensures KeepsJob(s, Run(p, s, cs), n)
    decreases |cs|
  {
    hide Step, NameOf;
    if |cs| > 0 {
      StepKeepsOthersJob(p, s, cs[0], n);
      OthersJobsStay(p, Step(p, s, cs[0]), cs[1..], n);
    }
  }
}
