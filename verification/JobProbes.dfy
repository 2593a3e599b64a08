/**
  What the Job probes of a policy achieve, given that all of them share one Job name per
  revision, and that deleting a finished Job may fail unnoticed.
 */
module JobProbes {
  import opened Options
  import opened Naming
  import opened PodTemplate
  import opened TemplateLaws
  import opened ProbeJob
  import opened Conditions
  import opened Rotation
  import opened Safety
  import opened Progress

  /** A deleted Job is gone when the next probe of the list looks for it. */
  predicate EffectiveDeletes(c: Answers) {
    forall i :: 0 <= i < |c.probes| ==> c.probes[i].jobDelete
  }

  predicate TwoJobProbes(p: PolicySpec, i: nat, j: nat) {
    i < j < |p.probes| && p.probes[i].JobProbe? && p.probes[j].JobProbe?
  }

  predicate AtMostOneJobProbe(p: PolicySpec) {
    forall i, j :: 0 <= i < j < |p.probes| ==> !TwoJobProbes(p, i, j)
  }

  function NameOf(p: PolicySpec, revision: string): string {
    JobName(p.name, SecretOf(p, revision))
  }

  /** A Job probe that finds no Job creates one and waits. */
  lemma {:induction false} MissingJobDoesNotPass(p: PolicySpec, st: Status, jobs: map<string, Job>, wins: set<Job>,
                                                 c: Answers, i: nat, k: nat)
    requires i <= k < |p.probes| && p.probes[k].JobProbe? && NameOf(p, st.desired) !in jobs
    ensures !ProbesFrom(p, st, jobs, wins, c, i).outcome.Passed?
    decreases k - i
  {
    hide JobName, SecretOf, JobFor, Verdict;
    if i < k && p.probes[i].NetworkProbe? {
      MissingJobDoesNotPass(p, st, jobs, wins, c, i + 1, k);
    }
  }

  lemma {:induction false} SecondJobFindsNothing(p: PolicySpec, st: Status, jobs: map<string, Job>, wins: set<Job>,
                                                 c: Answers, i: nat, j: nat, k: nat)
    requires i <= j && TwoJobProbes(p, j, k) && EffectiveDeletes(c)
    ensures !ProbesFrom(p, st, jobs, wins, c, i).outcome.Passed?
    decreases j - i
  {
    var name := NameOf(p, st.desired);
    if p.probes[i].NetworkProbe? {
      SecondJobFindsNothing(p, st, jobs, wins, c, i + 1, j, k);
    } else if AnswerOf(c, i).jobDelete && name in jobs {
      MissingJobDoesNotPass(p, st, jobs - {name}, wins + {jobs[name]}, c, i + 1, k);
    }
  }

  predicate JobSpecsGiven(p: PolicySpec) {
    forall k :: 0 <= k < |p.probes| && p.probes[k].JobProbe? ==> p.probes[k].spec.Some?
  }

  // ---------------------------------------------------------------- the run in which a list passes

  const COMPLETE := JobStatus([JobCondition(JobComplete, true)], false)

  /** Every call succeeds and every probe agrees; deletes of Jobs are effective or all fail. */
  function Agreeing(p: PolicySpec, h: Revision, deletes: bool): Answers {
    Smooth(h).(probes := seq(|p.probes|, i => ProbeAnswer(true, true, COMPLETE, deletes, Accepted)))
  }

  /** The first Job probe from the i-th probe on, or the length of the list. */
  function FirstJob(p: PolicySpec, i: nat): (k: nat)
    requires i <= |p.probes|
    ensures i <= k <= |p.probes| && (k < |p.probes| ==> p.probes[k].JobProbe?)
    ensures forall j :: i <= j < k ==> p.probes[j].NetworkProbe?
    decreases |p.probes| - i
  {
    if i == |p.probes| || p.probes[i].JobProbe? then i else FirstJob(p, i + 1)
  }

  predicate HasJob(p: PolicySpec) {
    FirstJob(p, 0) < |p.probes|
  }

  /** The Job that the first Job probe builds, the only one there will be. */
  function OnlyJob(p: PolicySpec, st: Status): Job
    requires HasJob(p) && JobSpecsGiven(p)
  {
    JobFor(p, st, p.probes[FirstJob(p, 0)].spec.value)
  }

  lemma {:induction false} FirstJobIsCreated(p: PolicySpec, st: Status, jobs: map<string, Job>, wins: set<Job>,
                                             h: Revision, deletes: bool, i: nat)
    requires i <= |p.probes| && JobSpecsGiven(p) && NameOf(p, st.desired) !in jobs
    ensures var k := FirstJob(p, i);
      ProbesFrom(p, st, jobs, wins, Agreeing(p, h, deletes), i) ==
      if k == |p.probes| then ProbeResult(Passed, jobs, wins)
      else ProbeResult(Waiting, jobs[NameOf(p, st.desired) := JobFor(p, st, p.probes[k].spec.value)], wins)
    decreases |p.probes| - i
  {
    hide JobName, SecretOf, JobFor, Verdict;
    if i < |p.probes| && p.probes[i].NetworkProbe? {
      FirstJobIsCreated(p, st, jobs, wins, h, deletes, i + 1);
    }
  }

  /** With the Job there and complete the whole list passes on it, unless its deletion takes it from a second probe. */
  lemma {:induction false} ListAccepts(p: PolicySpec, st: Status, jobs: map<string, Job>, wins: set<Job>,
                                       h: Revision, deletes: bool, i: nat)
    requires i <= |p.probes| && JobSpecsGiven(p) && (deletes ==> AtMostOneJobProbe(p))
    requires FirstJob(p, i) < |p.probes| ==> NameOf(p, st.desired) in jobs
    ensures var r := ProbesFrom(p, st, jobs, wins, Agreeing(p, h, deletes), i);
      && r.outcome.Passed?
      && r.wins == if FirstJob(p, i) < |p.probes| then wins + {jobs[NameOf(p, st.desired)]} else wins
    decreases |p.probes| - i
  {
    hide JobName, SecretOf, JobFor;
    if i < |p.probes| {
      var name := NameOf(p, st.desired);
      if p.probes[i].NetworkProbe? {
        ListAccepts(p, st, jobs, wins, h, deletes, i + 1);
      } else {
        var k := FirstJob(p, i + 1);
        assert deletes && k < |p.probes| ==> TwoJobProbes(p, i, k);
        ListAccepts(p, st, if deletes then jobs - {name} else jobs, wins + {jobs[name]}, h, deletes, i + 1);
        assert wins + {jobs[name]} + {jobs[name]} == wins + {jobs[name]};
      }
    }
  }

  lemma WaitingStep(p: PolicySpec, s: State, c: Answers)
    requires Validates(p, s, c) && RunProbes(p, s, c).outcome.Waiting?
    ensures Step(p, s, c) == Probed(s, RunProbes(p, s, c))
  {
    hide RunProbes;
  }

  lemma PassedWins(p: PolicySpec, s: State, c: Answers)
    requires Passes(p, s, c)
    ensures Step(p, s, c).history.jobWins == RunProbes(p, s, c).wins
  {
    hide RunProbes, Promoted, BindingOf, SecretOf, Collected, ResolveKind, Set, Remove;
  }

  /** Three steps to the probes, one that creates the Job if there is one to create, and then the pass. */
  function Towards(p: PolicySpec, h: Revision, deletes: bool): seq<Answers> {
    [Smooth(h), Smooth(h), Smooth(h)] + if HasJob(p) then [Agreeing(p, h, deletes)] else []
  }

  lemma ProbesAtFirst(p: PolicySpec, s: State, h: Revision, deletes: bool)
    requires JobSpecsGiven(p) && s.jobs == map[] && SecretOf(p, s.status.desired) in s.secrets
    ensures RunProbes(p, s, Agreeing(p, h, deletes)) ==
      if HasJob(p) then ProbeResult(Waiting, map[NameOf(p, s.status.desired) := OnlyJob(p, s.status)], s.history.jobWins)
      else ProbeResult(Passed, map[], s.history.jobWins)
  {
    hide ProbesFrom, JobName, JobFor, SecretOf;
    if |p.probes| > 0 {
      FirstJobIsCreated(p, s.status, s.jobs, s.history.jobWins, h, deletes, 0);
    }
  }

  lemma ProbesAtLast(p: PolicySpec, s: State, h: Revision, deletes: bool)
    requires JobSpecsGiven(p) && (deletes ==> AtMostOneJobProbe(p)) && SecretOf(p, s.status.desired) in s.secrets
    requires HasJob(p) && NameOf(p, s.status.desired) in s.jobs
    ensures var r := RunProbes(p, s, Agreeing(p, h, deletes));
      r.outcome.Passed? && r.wins == s.history.jobWins + {s.jobs[NameOf(p, s.status.desired)]}
  {
    hide ProbesFrom, JobName, JobFor, SecretOf;
    ListAccepts(p, s.status, s.jobs, s.history.jobWins, h, deletes, 0);
  }

  /**
    From every initial state a list whose templates are given passes, and production is promoted,
    if deletes fail or there is no second Job probe. The first Job probe's Job is the only one ever
    built, and the only one seen to succeed.
   */
  lemma ListPasses(p: PolicySpec, s: State, h: Revision, deletes: bool)
    requires !IsRollout(p) && ResolveKind(p.kind).Some? && Initial(p, s)
    requires JobSpecsGiven(p) && (deletes ==> AtMostOneJobProbe(p))
    ensures var s1, c := Run(p, s, Towards(p, h, deletes)), Agreeing(p, h, deletes);
      && Promotes(p, s1, c) && s1.status.desired == h
      && Step(p, s1, c).history.jobWins == if HasJob(p) then {OnlyJob(p, s1.status)} else {}
  {
    hide Run, Step, RunProbes, SecretOf, NameOf, OnlyJob, HasJob, JobSpecsGiven, OwnRevisions, CanaryOf, BindingOf;
    var c, s3 := Agreeing(p, h, deletes), Run(p, s, [Smooth(h), Smooth(h), Smooth(h)]);
    ReachProbes(p, s, h, Smooth(h));
    assert SecretOf(p, h) in s3.secrets;
    assert Validates(p, s3, c);
    ProbesAtFirst(p, s3, h, deletes);
    if HasJob(p) {
      RunSnoc(p, s, [Smooth(h), Smooth(h), Smooth(h)], c);
      WaitingStep(p, s3, c);
      var s4 := Step(p, s3, c);
      ProbesAtLast(p, s4, h, deletes);
      PassedWins(p, s4, c);
    } else {
      assert [Smooth(h), Smooth(h), Smooth(h)] + [] == [Smooth(h), Smooth(h), Smooth(h)];
      PassedWins(p, s3, c);
    }
  }

  // ---------------------------------------------------------------- when a list can pass

  /** The run with a last step ends in a pass, and its deletes are effective if they have to be. */
  predicate PassesIn(p: PolicySpec, s: State, cs: seq<Answers>, c: Answers, effective: bool) {
    && Initial(p, s) && Passes(p, Run(p, s, cs), c)
    && (effective ==> EffectiveDeletes(c) && forall i :: 0 <= i < |cs| ==> EffectiveDeletes(cs[i]))
  }

  ghost predicate CanPass(p: PolicySpec, effective: bool) {
    exists s, cs, c :: PassesIn(p, s, cs, c, effective)
  }

  /**
    A probe list can pass, in some run of a new policy, if and only if every Job probe has its
    template and, where deletes are effective, there is at most one of them.
   */
  lemma ListCanPassIff(p: PolicySpec, effective: bool)
    requires !IsRollout(p) && ResolveKind(p.kind).Some?
    ensures CanPass(p, effective) <==> JobSpecsGiven(p) && (effective ==> AtMostOneJobProbe(p))
  {
    hide Run, Step, Initial, RunProbes, JobSpecsGiven, AtMostOneJobProbe, EffectiveDeletes, DetermineState;
    if CanPass(p, effective) {
      var s, cs, c :| PassesIn(p, s, cs, c, effective);
      PassNeeds(p, Run(p, s, cs), c);
    }
    if JobSpecsGiven(p) && (effective ==> AtMostOneJobProbe(p)) {
      var h: Revision := "000000000000";
      BareIsInitial(p);
      ListPasses(p, StartWith(BARE), h, effective);
      DeletesOf(p, h, effective);
      assert PassesIn(p, StartWith(BARE), Towards(p, h, effective), Agreeing(p, h, effective), effective);
    }
  }

  lemma DeletesOf(p: PolicySpec, h: Revision, effective: bool)
    ensures effective ==> EffectiveDeletes(Agreeing(p, h, true))
    ensures var cs := Towards(p, h, effective); effective ==> forall i :: 0 <= i < |cs| ==> EffectiveDeletes(cs[i])
  {
  }

  lemma PassNeeds(p: PolicySpec, s: State, c: Answers)
    requires Passes(p, s, c)
    ensures JobSpecsGiven(p) && (EffectiveDeletes(c) ==> AtMostOneJobProbe(p))
  {
    hide ProbesFrom, SecretOf;
    forall k | 0 <= k < |p.probes| && p.probes[k].JobProbe? ensures p.probes[k].spec.Some? {
      PassAcceptsEveryProbe(p, s.status, s.jobs, s.history.jobWins, c, 0, k);
    }
    if EffectiveDeletes(c) {
      forall i, j | 0 <= i < j < |p.probes| ensures !TwoJobProbes(p, i, j) {
        if TwoJobProbes(p, i, j) {
          SecondJobFindsNothing(p, s.status, s.jobs, s.history.jobWins, c, 0, i, j);
        }
      }
    }
  }

  /** With two Job probes in its list a policy never touches production, in any run with effective deletes. */
  lemma {:induction false} TwoJobProbesNeverPromote(p: PolicySpec, s: State, cs: seq<Answers>, j: nat, k: nat)
    requires !IsRollout(p) && StatusOk(p, s.status) && TwoJobProbes(p, j, k)
    requires forall i :: 0 <= i < |cs| ==> EffectiveDeletes(cs[i])
    ensures Run(p, s, cs).template == s.template && Run(p, s, cs).status.current == s.status.current
    decreases |cs|
  {
    if |cs| > 0 {
      SecondJobFindsNothing(p, s.status, s.jobs, s.history.jobWins, cs[0], 0, j, k);
      ClusterMoves(p, s, cs[0]);
      DesiredIsConstant(p, s, cs[0]);
      StepKeepsStatus(p, s, cs[0]);
      TwoJobProbesNeverPromote(p, Step(p, s, cs[0]), cs[1..], j, k);
    }
  }

  // ---------------------------------------------------------------- what a passed list says about each probe

  /** All Job probes have the same template, or none. */
  predicate OneTemplate(p: PolicySpec) {
    forall i, j :: 0 <= i < |p.probes| && 0 <= j < |p.probes| && p.probes[i].JobProbe? && p.probes[j].JobProbe? ==>
      p.probes[i].spec == p.probes[j].spec
  }

  predicate AllFrom(p: PolicySpec, t: JobTemplate) {
    forall k :: 0 <= k < |p.probes| && p.probes[k].JobProbe? ==> p.probes[k].spec == Some(t)
  }

  /** The Job was built from that template for that revision, whatever was current then. */
  ghost predicate BuiltFrom(p: PolicySpec, t: JobTemplate, revision: string, job: Job) {
    exists current :: job == BuiltJob(p.name, BindingOf(p), current, revision, t, SecretOf(p, revision))
  }

  ghost predicate JobOk(p: PolicySpec, t: JobTemplate, name: string, job: Job) {
    exists revision: Revision :: name == NameOf(p, revision) && BuiltFrom(p, t, revision, job)
  }

  ghost predicate JobsOk(p: PolicySpec, t: JobTemplate, jobs: map<string, Job>) {
    forall n :: n in jobs ==> JobOk(p, t, n, jobs[n])
  }

  predicate DesiredOk(st: Status) {
    st.desired == "" || IsRevision(st.desired)
  }

  lemma NewJobIsOk(p: PolicySpec, t: JobTemplate, st: Status)
    requires IsRevision(st.desired)
    ensures JobOk(p, t, NameOf(p, st.desired), JobFor(p, st, t))
  {
    assert BuiltFrom(p, t, st.desired, JobFor(p, st, t));
  }

  /** What a pass needs of the k-th probe: its Job is there, was seen to succeed in this pass, and is added to the wins. */
  predicate Seen(p: PolicySpec, st: Status, jobs: map<string, Job>, r: ProbeResult, c: Answers, k: nat)
    requires k < |p.probes|
  {
    p.probes[k].JobProbe? ==>
      && NameOf(p, st.desired) in jobs && jobs[NameOf(p, st.desired)] in r.wins
      && Verdict(AnswerOf(c, k).jobStatus).Succeeded?
  }

  lemma {:induction false} ProbesKeepJobs(p: PolicySpec, t: JobTemplate, st: Status, jobs: map<string, Job>,
                                          wins: set<Job>, c: Answers, i: nat)
    requires i <= |p.probes| && AllFrom(p, t) && IsRevision(st.desired) && JobsOk(p, t, jobs)
    ensures var r := ProbesFrom(p, st, jobs, wins, c, i);
      && JobsOk(p, t, r.jobs) && wins <= r.wins
      && (r.outcome.Passed? ==> forall k :: i <= k < |p.probes| ==> Seen(p, st, jobs, r, c, k))
    decreases |p.probes| - i
  {
    hide JobName, SecretOf, JobFor, Verdict, JobOk;
    if i < |p.probes| {
      var name := NameOf(p, st.desired);
      NewJobIsOk(p, t, st);
      if p.probes[i].NetworkProbe? {
        ProbesKeepJobs(p, t, st, jobs, wins, c, i + 1);
      } else if name in jobs {
        var rest := if AnswerOf(c, i).jobDelete then jobs - {name} else jobs;
        ProbesKeepJobs(p, t, st, rest, wins + {jobs[name]}, c, i + 1);
        var r := ProbesFrom(p, st, jobs, wins, c, i);
        assert jobs[name] in wins + {jobs[name]};
        forall k | i <= k < |p.probes| && r.outcome.Passed? ensures Seen(p, st, jobs, r, c, k) {
          assert k > i ==> Seen(p, st, rest, r, c, k);
        }
      }
    }
  }

  predicate Submap(jobs: map<string, Job>, more: map<string, Job>) {
    forall n :: n in jobs ==> n in more && jobs[n] == more[n]
  }

  lemma ValidateJobs(p: PolicySpec, s: State, c: Answers)
    ensures var r, s' := RunProbes(p, s, c), Validate(p, s, c);
      Submap(s'.jobs, r.jobs) && s'.history.jobWins == r.wins
  {
    hide With, Without, RunProbes, Promoted, BindingOf, SecretOf, Collected, ResolveKind, Threshold;
  }

  lemma ConsultJobs(p: PolicySpec, s: State, c: Answers)
    ensures Submap(Consult(p, s, c).jobs, s.jobs)
  {
  }

  lemma ProvisionJobs(p: PolicySpec, s: State, c: Answers)
    ensures Provision(p, s, c).jobs == s.jobs
  {
  }

  lemma JobMoves(p: PolicySpec, s: State, c: Answers)
    requires !IsRollout(p) && DetermineState(s.status) != At(RolloutProgressing)
    ensures if Validates(p, s, c) then
        var r, s' := RunProbes(p, s, c), Step(p, s, c); Submap(s'.jobs, r.jobs) && s'.history.jobWins == r.wins
      else Submap(Step(p, s, c).jobs, s.jobs)
  {
    hide Consult, Provision, Validate, AwaitRollout, RunProbes;
    if Validates(p, s, c) {
      ValidateJobs(p, s, c);
    } else {
      ConsultJobs(p, s, c);
      ProvisionJobs(p, s, c);
    }
  }

  lemma StepKeepsJobs(p: PolicySpec, t: JobTemplate, s: State, c: Answers)
    requires !IsRollout(p) && AllFrom(p, t) && StatusOk(p, s.status) && DesiredOk(s.status) && JobsOk(p, t, s.jobs)
    ensures JobsOk(p, t, Step(p, s, c).jobs) && DesiredOk(Step(p, s, c).status)
  {
    hide Step, ProbesFrom, JobOk, SecretOf, Managed;
    PhaseIsTheCondition(s.status);
    JobMoves(p, s, c);
    DesiredIsConstant(p, s, c);
    if Validates(p, s, c) {
      ProbesKeepJobs(p, t, s.status, s.jobs, s.history.jobWins, c, 0);
    }
  }

  lemma {:induction false} RunKeepsJobs(p: PolicySpec, t: JobTemplate, s: State, cs: seq<Answers>)
    requires !IsRollout(p) && AllFrom(p, t) && StatusOk(p, s.status) && DesiredOk(s.status) && JobsOk(p, t, s.jobs)
    ensures var s' := Run(p, s, cs); StatusOk(p, s'.status) && DesiredOk(s'.status) && JobsOk(p, t, s'.jobs)
    decreases |cs|
  {
    hide Step, StatusOk, JobsOk;
    if |cs| > 0 {
      StepKeepsJobs(p, t, s, cs[0]);
      StepKeepsStatus(p, s, cs[0]);
      RunKeepsJobs(p, t, Step(p, s, cs[0]), cs[1..]);
    }
  }

  lemma NameOfInjective(p: PolicySpec, r1: Revision, r2: Revision)
    ensures NameOf(p, r1) == NameOf(p, r2) ==> r1 == r2
  {
    var prefix := RevisionPrefix(p.target, Managed(p));
    assert HasSuffix(prefix + r1, r1) && HasSuffix(prefix + r2, r2);
    JobNameSeparatesRevisions(p.name, SecretOf(p, r1), r1, SecretOf(p, r2), r2);
  }

  /** The Job of that name is built from the k-th probe's template for the revision, and has been seen to succeed. */
  ghost predicate OwnJobSucceeded(p: PolicySpec, t: JobTemplate, s: State, c: Answers, k: nat) {
    var name := NameOf(p, s.status.desired);
    && name in s.jobs && BuiltFrom(p, t, s.status.desired, s.jobs[name])
    && Verdict(AnswerOf(c, k).jobStatus).Succeeded?
    && s.jobs[name] in Step(p, s, c).history.jobWins
  }

  /**
    In any run, a list whose Job probes have one template passes only if, for each of them, a Job
    built from it for the desired revision was there and was seen to succeed in that pass.
   */
  lemma PassMeansJobSucceeded(p: PolicySpec, k: nat, s: State, cs: seq<Answers>, c: Answers)
    requires !IsRollout(p) && OneTemplate(p) && k < |p.probes| && p.probes[k].JobProbe? && Initial(p, s)
    requires Passes(p, Run(p, s, cs), c)
    ensures p.probes[k].spec.Some? && OwnJobSucceeded(p, p.probes[k].spec.value, Run(p, s, cs), c, k)
  {
    hide Run, Step, ProbesFrom, SecretOf, Managed, OwnRevisions, StatusOk, BuiltFrom;
    var s1 := Run(p, s, cs);
    PassNeeds(p, s1, c);
    var t := p.probes[k].spec.value;
    InitialStatusOk(p, s);
    RunKeepsJobs(p, t, s, cs);
    ProbesKeepJobs(p, t, s1.status, s1.jobs, s1.history.jobWins, c, 0);
    assert Seen(p, s1.status, s1.jobs, RunProbes(p, s1, c), c, k);
    PassedWins(p, s1, c);
    var name := NameOf(p, s1.status.desired);
    var revision: Revision :| name == NameOf(p, revision) && BuiltFrom(p, t, revision, s1.jobs[name]);
    NameOfInjective(p, revision, s1.status.desired);
  }

  lemma InitialStatusOk(p: PolicySpec, s: State)
    requires Initial(p, s)
    ensures StatusOk(p, s.status)
  {
    hide OwnRevisions, LabelsOk;
  }

  /** In every run, whoever passes has had each Job probe's own Job for the revision, and seen it succeed. */
  ghost predicate PassIsOwn(p: PolicySpec) {
    forall s, cs, c, k ::
      PassesIn(p, s, cs, c, false) && 0 <= k < |p.probes| && p.probes[k].JobProbe? && p.probes[k].spec.Some? ==>
      OwnJobSeen(p, p.probes[k].spec.value, Run(p, s, cs).status.desired, Step(p, Run(p, s, cs), c).history.jobWins)
  }

  ghost predicate OwnJobSeen(p: PolicySpec, t: JobTemplate, revision: string, wins: set<Job>) {
    exists job :: job in wins && BuiltFrom(p, t, revision, job)
  }

  lemma TwoTemplatesShareAJob(p: PolicySpec)
    requires !IsRollout(p) && ResolveKind(p.kind).Some? && JobSpecsGiven(p) && !OneTemplate(p)
    ensures !PassIsOwn(p)
  {
    hide Run, Step, Initial, RunProbes, SecretOf, BindingOf, Managed;
    var i, j :| 0 <= i < |p.probes| && 0 <= j < |p.probes| && p.probes[i].JobProbe? && p.probes[j].JobProbe?
      && p.probes[i].spec != p.probes[j].spec;
    var first := FirstJob(p, 0);
    var k := if p.probes[i].spec != p.probes[first].spec then i else j;
    var h: Revision := "000000000000";
    BareIsInitial(p);
    ListPasses(p, StartWith(BARE), h, false);
    var cs, c := Towards(p, h, false), Agreeing(p, h, false);
    var s1 := Run(p, StartWith(BARE), cs);
    assert PassesIn(p, StartWith(BARE), cs, c, false);
    assert OnlyJob(p, s1.status).origin == p.probes[first].spec.value;
    assert !OwnJobSeen(p, p.probes[k].spec.value, s1.status.desired, Step(p, s1, c).history.jobWins);
  }

  /**
    Over all runs, a pass means that each Job probe's own Job was built for the revision and seen
    to succeed, if and only if the Job probes share one template, as one alone does; or one of
    them has none, and nothing ever passes.
   */
  lemma PassIsOwnIff(p: PolicySpec)
    requires !IsRollout(p) && ResolveKind(p.kind).Some?
    ensures PassIsOwn(p) <==> OneTemplate(p) || !JobSpecsGiven(p)
  {
    hide Run, Step, Initial, Passes, BuiltFrom;
    if JobSpecsGiven(p) && !OneTemplate(p) {
      TwoTemplatesShareAJob(p);
    } else {
      forall s, cs, c, k |
        PassesIn(p, s, cs, c, false) && 0 <= k < |p.probes| && p.probes[k].JobProbe? && p.probes[k].spec.Some?
        ensures OwnJobSeen(p, p.probes[k].spec.value, Run(p, s, cs).status.desired, Step(p, Run(p, s, cs), c).history.jobWins)
      {
        PassNeeds(p, Run(p, s, cs), c);
        PassMeansJobSucceeded(p, k, s, cs, c);
      }
    }
  }
}
