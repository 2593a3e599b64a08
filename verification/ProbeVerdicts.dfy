/**
  What a pass over the probe list comes to, read off the answers: which probe decides, what it
  decides, what becomes of the Job, and what the reconcile then records.
 */
module ProbeVerdicts {
  import opened Options
  import opened Naming
  import opened ProbeJob
  import opened Conditions
  import opened Rotation
  import opened Safety
  import opened Progress
  import opened JobProbes

  // ---------------------------------------------------------------- the status of a Job

  /** The condition says that the Job completed or failed. */
  predicate Ends(cond: JobCondition) {
    cond in {JobCondition(JobComplete, true), JobCondition(JobFailed, true)}
  }

  predicate EndedAt(status: JobStatus, kind: JobConditionKind, i: nat) {
    && i < |status.conditions| && status.conditions[i] == JobCondition(kind, true)
    && forall k :: 0 <= k < i ==> !Ends(status.conditions[k])
  }

  /** The first condition that ends the Job is of that kind. */
  ghost predicate Ended(status: JobStatus, kind: JobConditionKind) {
    exists i: nat :: EndedAt(status, kind, i)
  }

  predicate StillOpen(status: JobStatus) {
    forall i :: 0 <= i < |status.conditions| ==> !Ends(status.conditions[i])
  }

  lemma EndedFrom(status: JobStatus, kind: JobConditionKind)
    requires |status.conditions| > 0 && kind in {JobComplete, JobFailed}
    ensures var first, rest := status.conditions[0], status.(conditions := status.conditions[1..]);
      && (StillOpen(status) <==> !Ends(first) && StillOpen(rest))
      && (Ended(status, kind) <==> if Ends(first) then first == JobCondition(kind, true) else Ended(rest, kind))
  {
    var first, rest := status.conditions[0], status.(conditions := status.conditions[1..]);
    assert forall k :: 0 < k < |status.conditions| ==> status.conditions[k] == rest.conditions[k - 1];
    assert forall k :: 0 <= k < |rest.conditions| ==> rest.conditions[k] == status.conditions[k + 1];
    assert forall i: nat :: EndedAt(rest, kind, i) && !Ends(first) ==> EndedAt(status, kind, i + 1);
    assert EndedAt(status, kind, 0) <==> first == JobCondition(kind, true);
    if i: nat :| EndedAt(status, kind, i) {
      assert i > 0 ==> EndedAt(rest, kind, i - 1);
    }
    if i: nat :| EndedAt(rest, kind, i) {
      assert !Ends(first) ==> EndedAt(status, kind, i + 1);
    }
  }

  /** The first ending condition decides; an open Job has timed out or runs, by its deadline. */
  lemma {:induction false} VerdictIs(status: JobStatus)
    ensures Verdict(status) == Succeeded <==> Ended(status, JobComplete)
    ensures Verdict(status) == Failed <==> Ended(status, JobFailed)
    ensures Verdict(status) == TimedOut <==> StillOpen(status) && status.expired
    ensures Verdict(status) == Running <==> StillOpen(status) && !status.expired
    decreases |status.conditions|
  {
    hide Ended, StillOpen;
    if |status.conditions| > 0 {
      EndedFrom(status, JobComplete);
      EndedFrom(status, JobFailed);
      VerdictIs(status.(conditions := status.conditions[1..]));
    } else {
      NothingEnded(status);
    }
  }

  lemma NothingEnded(status: JobStatus)
    requires status.conditions == []
    ensures StillOpen(status) && !Ended(status, JobComplete) && !Ended(status, JobFailed)
  {
  }

  // ---------------------------------------------------------------- one probe's answer

  /** A Job of the shared name is there when the k-th probe looks: there was one, and no earlier probe deleted it. */
  predicate JobThere(p: PolicySpec, st: Status, jobs: map<string, Job>, c: Answers, k: nat)
    requires k <= |p.probes|
  {
    NameOf(p, st.desired) in jobs && forall j :: 0 <= j < k && p.probes[j].JobProbe? ==> !AnswerOf(c, j).jobDelete
  }

  ghost predicate Accepts(p: PolicySpec, st: Status, jobs: map<string, Job>, c: Answers, k: nat)
    requires k < |p.probes|
  {
    var a := AnswerOf(c, k);
    match p.probes[k]
    case NetworkProbe(_) => a.network == Accepted
    case JobProbe(spec) => spec.Some? && a.jobGet && JobThere(p, st, jobs, c, k) && Ended(a.jobStatus, JobComplete)
  }

  /** The canary is not ready, the Job runs, or there was none and it was created just now. */
  predicate Awaits(p: PolicySpec, st: Status, jobs: map<string, Job>, c: Answers, k: nat)
    requires k < |p.probes|
  {
    var a := AnswerOf(c, k);
    match p.probes[k]
    case NetworkProbe(_) => a.network == AwaitingCanary
    case JobProbe(spec) =>
      && spec.Some? && a.jobGet
      && if JobThere(p, st, jobs, c, k) then StillOpen(a.jobStatus) && !a.jobStatus.expired else a.jobCreate
  }

  /** An error, a rejection, a missing template, or a Job that failed or ran out of time. */
  ghost predicate Rejects(p: PolicySpec, st: Status, jobs: map<string, Job>, c: Answers, k: nat)
    requires k < |p.probes|
  {
    var a := AnswerOf(c, k);
    match p.probes[k]
    case NetworkProbe(_) => a.network in {EndpointError, Rejected}
    case JobProbe(spec) =>
      || spec.None? || !a.jobGet
      || (if JobThere(p, st, jobs, c, k)
          then Ended(a.jobStatus, JobFailed) || (StillOpen(a.jobStatus) && a.jobStatus.expired)
          else !a.jobCreate)
  }

  /** The k-th probe is the first that is not accepted. */
  ghost predicate Decides(p: PolicySpec, st: Status, jobs: map<string, Job>, c: Answers, k: nat) {
    && k < |p.probes| && !Accepts(p, st, jobs, c, k)
    && forall j :: 0 <= j < k ==> Accepts(p, st, jobs, c, j)
  }

  ghost predicate AllAccept(p: PolicySpec, st: Status, jobs: map<string, Job>, c: Answers) {
    forall k :: 0 <= k < |p.probes| ==> Accepts(p, st, jobs, c, k)
  }

  // ---------------------------------------------------------------- the list

  /** The Jobs when the k-th probe is reached. */
  function JobsAt(p: PolicySpec, st: Status, jobs: map<string, Job>, c: Answers, k: nat): map<string, Job>
    requires k <= |p.probes|
  {
    if JobThere(p, st, jobs, c, k) then jobs else jobs - {NameOf(p, st.desired)}
  }

  lemma OneVerdict(status: JobStatus)
    ensures !(Ended(status, JobComplete) && Ended(status, JobFailed))
    ensures StillOpen(status) ==> !Ended(status, JobComplete) && !Ended(status, JobFailed)
    ensures StillOpen(status) || Ended(status, JobComplete) || Ended(status, JobFailed)
  {
    hide Verdict, Ended, StillOpen;
    VerdictIs(status);
  }

  /** The three answers exclude each other, and one is given. */
  lemma OneAnswer(p: PolicySpec, st: Status, jobs: map<string, Job>, c: Answers, k: nat)
    requires k < |p.probes|
    ensures Accepts(p, st, jobs, c, k) ==> !Awaits(p, st, jobs, c, k) && !Rejects(p, st, jobs, c, k)
    ensures Awaits(p, st, jobs, c, k) ==> !Rejects(p, st, jobs, c, k)
    ensures Accepts(p, st, jobs, c, k) || Awaits(p, st, jobs, c, k) || Rejects(p, st, jobs, c, k)
  {
    hide Ended, StillOpen, JobThere;
    OneVerdict(AnswerOf(c, k).jobStatus);
  }

  /** An accepted probe hands on to the next, with the Job deleted if the deletion succeeds. */
  lemma AcceptedGoesOn(p: PolicySpec, st: Status, jobs: map<string, Job>, wins: set<Job>, c: Answers, k: nat)
    returns (more: set<Job>)
    requires k < |p.probes| && Accepts(p, st, jobs, c, k)
    ensures ProbesFrom(p, st, JobsAt(p, st, jobs, c, k), wins, c, k)
         == ProbesFrom(p, st, JobsAt(p, st, jobs, c, k + 1), more, c, k + 1)
  {
    hide JobName, SecretOf, JobFor, Verdict, Ended;
    var name := NameOf(p, st.desired);
    VerdictIs(AnswerOf(c, k).jobStatus);
    more := if p.probes[k].JobProbe? then wins + {jobs[name]} else wins;
  }

  /** The Jobs that the deciding probe leaves. */
  function JobsLeft(p: PolicySpec, st: Status, jobs: map<string, Job>, c: Answers, k: nat): map<string, Job>
    requires k < |p.probes|
  {
    var a, name := AnswerOf(c, k), NameOf(p, st.desired);
    match p.probes[k]
    case NetworkProbe(_) => JobsAt(p, st, jobs, c, k)
    case JobProbe(None) => JobsAt(p, st, jobs, c, k)
    case JobProbe(Some(spec)) =>
      if !a.jobGet then JobsAt(p, st, jobs, c, k)
      else if !JobThere(p, st, jobs, c, k) then
        if a.jobCreate
        then jobs[name := BuiltJob(p.name, BindingOf(p), st.current, st.desired, spec, SecretOf(p, st.desired))]
        else JobsAt(p, st, jobs, c, k)
      else if StillOpen(a.jobStatus) && !a.jobStatus.expired then jobs
      else if a.jobDelete then jobs - {name} else jobs
  }

  lemma DecidedHere(p: PolicySpec, st: Status, jobs: map<string, Job>, wins: set<Job>, c: Answers, k: nat)
    requires k < |p.probes| && !Accepts(p, st, jobs, c, k)
    ensures ProbesFrom(p, st, JobsAt(p, st, jobs, c, k), wins, c, k)
         == ProbeResult(if Awaits(p, st, jobs, c, k) then Waiting else Refused, JobsLeft(p, st, jobs, c, k), wins)
  {
    hide JobName, SecretOf, Verdict, Ended, StillOpen, BuiltJob;
    var status, name := AnswerOf(c, k).jobStatus, NameOf(p, st.desired);
    VerdictIs(status);
    OneVerdict(status);
    if p.probes[k].JobProbe? && p.probes[k].spec.Some? {
      assert (jobs - {name})[name := JobFor(p, st, p.probes[k].spec.value)] == jobs[name := JobFor(p, st, p.probes[k].spec.value)];
    }
  }

  ghost predicate DecidedAs(p: PolicySpec, st: Status, jobs: map<string, Job>, c: Answers, d: nat, r: ProbeResult) {
    && Decides(p, st, jobs, c, d)
    && r.outcome == (if Awaits(p, st, jobs, c, d) then Waiting else Refused)
    && r.jobs == JobsLeft(p, st, jobs, c, d)
  }

  /** From the k-th probe on, when all before it were accepted: the first that is not decides. */
  lemma {:induction false} FirstDecides(p: PolicySpec, st: Status, jobs: map<string, Job>, wins: set<Job>, c: Answers, k: nat)
    requires k <= |p.probes| && forall j :: 0 <= j < k ==> Accepts(p, st, jobs, c, j)
    ensures var r := ProbesFrom(p, st, JobsAt(p, st, jobs, c, k), wins, c, k);
      if AllAccept(p, st, jobs, c) then r.outcome == Passed && r.jobs == JobsAt(p, st, jobs, c, |p.probes|)
      else exists d: nat :: DecidedAs(p, st, jobs, c, d, r)
    decreases |p.probes| - k
  {
    hide Accepts, Awaits, JobsAt, JobsLeft;
    if k < |p.probes| {
      if Accepts(p, st, jobs, c, k) {
        var more := AcceptedGoesOn(p, st, jobs, wins, c, k);
        FirstDecides(p, st, jobs, more, c, k + 1);
      } else {
        DecidedHere(p, st, jobs, wins, c, k);
        assert DecidedAs(p, st, jobs, c, k, ProbesFrom(p, st, JobsAt(p, st, jobs, c, k), wins, c, k));
      }
    }
  }

  /** The revision's secret is there and can be read. */
  predicate SecretRead(p: PolicySpec, s: State, c: Answers) {
    c.getSecret && SecretOf(p, s.status.desired) in s.secrets
  }

  ghost predicate DecidedBy(p: PolicySpec, s: State, c: Answers, d: nat) {
    SecretRead(p, s, c) && Decides(p, s.status, s.jobs, c, d)
  }

  lemma AllAtFirst(p: PolicySpec, st: Status, jobs: map<string, Job>, c: Answers)
    ensures JobsAt(p, st, jobs, c, 0) == jobs
  {
    hide NameOf;
    assert NameOf(p, st.desired) !in jobs ==> jobs - {NameOf(p, st.desired)} == jobs;
  }

  lemma OneDecides(p: PolicySpec, st: Status, jobs: map<string, Job>, c: Answers, d: nat, e: nat)
    requires Decides(p, st, jobs, c, d) && Decides(p, st, jobs, c, e)
    ensures d == e && !AllAccept(p, st, jobs, c)
  {
    hide Accepts;
  }

  /**
    The pass succeeds exactly if the list is empty, or the secret is read and every probe accepts;
    it waits exactly if the first probe that does not accept awaits something; and it is refused
    exactly if the secret is not read or that probe rejects. Nothing else is a failed validation.
   */
  lemma OutcomeIff(p: PolicySpec, s: State, c: Answers)
    ensures var outcome := RunProbes(p, s, c).outcome;
      && (outcome == Passed <==> p.probes == [] || (SecretRead(p, s, c) && AllAccept(p, s.status, s.jobs, c)))
      && (outcome == Waiting <==> exists d: nat :: DecidedBy(p, s, c, d) && Awaits(p, s.status, s.jobs, c, d))
      && (outcome == Refused <==>
          || (p.probes != [] && !SecretRead(p, s, c))
          || exists d: nat :: DecidedBy(p, s, c, d) && Rejects(p, s.status, s.jobs, c, d))
  {
    hide ProbesFrom, Accepts, Awaits, Rejects, JobsAt, JobsLeft, SecretOf;
    var st, jobs := s.status, s.jobs;
    AllAtFirst(p, st, jobs, c);
    FirstDecides(p, st, jobs, s.history.jobWins, c, 0);
    forall d: nat, e: nat | Decides(p, st, jobs, c, d) && Decides(p, st, jobs, c, e)
      ensures d == e && !AllAccept(p, st, jobs, c)
    {
      OneDecides(p, st, jobs, c, d, e);
    }
    forall d: nat | Decides(p, st, jobs, c, d)
      ensures Awaits(p, st, jobs, c, d) <==> !Rejects(p, st, jobs, c, d)
    {
      OneAnswer(p, st, jobs, c, d);
    }
  }

  /** What the pass leaves of the Jobs; a Job that failed or ran out of time is gone, so that the next pass makes a new one. */
  lemma JobsAfterProbes(p: PolicySpec, s: State, c: Answers)
    ensures var left := RunProbes(p, s, c).jobs;
      && (p.probes == [] || !SecretRead(p, s, c) ==> left == s.jobs)
      && (p.probes != [] && SecretRead(p, s, c) && AllAccept(p, s.status, s.jobs, c) ==>
            left == JobsAt(p, s.status, s.jobs, c, |p.probes|))
      && (forall d: nat :: DecidedBy(p, s, c, d) ==> left == JobsLeft(p, s.status, s.jobs, c, d))
  {
    hide ProbesFrom, Accepts, Awaits, Rejects, JobsAt, JobsLeft, SecretOf;
    var st, jobs := s.status, s.jobs;
    AllAtFirst(p, st, jobs, c);
    FirstDecides(p, st, jobs, s.history.jobWins, c, 0);
    forall d: nat, e: nat | Decides(p, st, jobs, c, d) && Decides(p, st, jobs, c, e)
      ensures d == e && !AllAccept(p, st, jobs, c)
    {
      OneDecides(p, st, jobs, c, d, e);
    }
  }

  // ---------------------------------------------------------------- what the reconcile makes of it

  /** In a reachable state a validation is what a reconcile does exactly while Validating is present and the breaker closed. */
  lemma ValidatesIff(p: PolicySpec, s: State, c: Answers)
    requires StatusOk(p, s.status)
    ensures Validates(p, s, c) <==>
      c.getPolicy && s.status.desired != "" && !Tripped(s.status) && Has(s.status.conditions, Validating)
  {
    PhaseIsTheCondition(s.status);
  }

  /** The first probe that does not accept, which no Job probe precedes, decides without touching a Job. */
  lemma {:induction false} NetworkDecides(p: PolicySpec, st: Status, jobs: map<string, Job>, wins: set<Job>, c: Answers,
                                          i: nat, d: nat)
    requires i <= d < |p.probes| && forall j :: 0 <= j <= d ==> p.probes[j].NetworkProbe?
    requires AnswerOf(c, d).network != Accepted && forall j :: 0 <= j < d ==> AnswerOf(c, j).network == Accepted
    ensures ProbesFrom(p, st, jobs, wins, c, i)
         == ProbeResult(if AnswerOf(c, d).network == AwaitingCanary then Waiting else Refused, jobs, wins)
    decreases d - i
  {
    if i < d {
      NetworkDecides(p, st, jobs, wins, c, i + 1, d);
    }
  }

  /** While the deciding probe awaits something the reconcile records nothing and changes no more than Jobs. */
  lemma AwaitedChangesNothing(p: PolicySpec, s: State, c: Answers, d: nat)
    requires Validates(p, s, c) && DecidedBy(p, s, c, d) && Awaits(p, s.status, s.jobs, c, d)
    ensures var s' := Step(p, s, c);
      && s' == s.(jobs := JobsLeft(p, s.status, s.jobs, c, d), history := s.history.(jobWins := s'.history.jobWins))
      && ((forall j :: 0 <= j <= d ==> p.probes[j].NetworkProbe?) ==> s' == s)
  {
    hide Validates, ProbesFrom, Awaits, JobsLeft, SecretOf, NameOf, Step;
    OutcomeIff(p, s, c);
    JobsAfterProbes(p, s, c);
    WaitingStep(p, s, c);
    if forall j :: 0 <= j <= d ==> p.probes[j].NetworkProbe? {
      NetworkAnswers(p, s.status, s.jobs, c, d);
      NetworkDecides(p, s.status, s.jobs, s.history.jobWins, c, 0, d);
    }
  }

  lemma NetworkAnswers(p: PolicySpec, st: Status, jobs: map<string, Job>, c: Answers, d: nat)
    requires Decides(p, st, jobs, c, d) && forall j :: 0 <= j <= d ==> p.probes[j].NetworkProbe?
    ensures AnswerOf(c, d).network != Accepted && forall j :: 0 <= j < d ==> AnswerOf(c, j).network == Accepted
  {
    assert !Accepts(p, st, jobs, c, d);
    forall j | 0 <= j < d ensures AnswerOf(c, j).network == Accepted {
      assert Accepts(p, st, jobs, c, j) && p.probes[j].NetworkProbe?;
    }
  }

  /** The first probe, a network probe, says that the canary is not ready. */
  predicate CanaryNotReady(p: PolicySpec, s: State, c: Answers) {
    && p.probes != [] && p.probes[0].NetworkProbe? && SecretRead(p, s, c)
    && AnswerOf(c, 0).network == AwaitingCanary
  }

  /** However long the canary takes to become ready, nothing is counted against it: no run of such reconciles changes anything. */
  lemma {:induction false} SlowCanaryIsNoFailure(p: PolicySpec, s: State, cs: seq<Answers>)
    requires StatusOk(p, s.status) && s.status.desired != "" && !Tripped(s.status) && Has(s.status.conditions, Validating)
    requires forall i :: 0 <= i < |cs| ==> CanaryNotReady(p, s, cs[i])
    ensures Run(p, s, cs) == s
    decreases |cs|
  {
    hide StatusOk, SecretOf, Validates, RunProbes;
    if |cs| > 0 {
      ValidatesIff(p, s, cs[0]);
      if cs[0].getPolicy {
        assert DecidedBy(p, s, cs[0], 0);
        AwaitedChangesNothing(p, s, cs[0], 0);
      }
      assert Step(p, s, cs[0]) == s;
      SlowCanaryIsNoFailure(p, s, cs[1..]);
    }
  }

  /** The secret cannot be read, or the deciding probe rejects. */
  ghost predicate Failing(p: PolicySpec, s: State, c: Answers) {
    || (p.probes != [] && !SecretRead(p, s, c))
    || exists d: nat :: DecidedBy(p, s, c, d) && Rejects(p, s.status, s.jobs, c, d)
  }

  /** A failed validation is counted once, keeps production and the rotation, and opens the breaker at the threshold. */
  lemma FailureIsCounted(p: PolicySpec, s: State, c: Answers)
    requires !IsRollout(p) && StatusOk(p, s.status) && Validates(p, s, c) && c.writeStatus
    ensures Failing(p, s, c) <==> Step(p, s, c).status.failures == s.status.failures + 1
    ensures var st, s' := s.status, Step(p, s, c);
      Failing(p, s, c) ==>
        && s'.status.current == st.current && s'.status.desired == st.desired
        && s'.template == s.template && s'.secrets == s.secrets
        && (Tripped(s'.status) <==> st.failures + 1 >= Threshold(p))
        && (!Tripped(s'.status) ==> Find(s'.status.conditions, Validating) == Some(False))
  {
    hide Step, Validate, RunProbes, Set, Remove, SecretOf, Threshold, ResolveKind;
    OutcomeIff(p, s, c);
    WrittenMoves(p, s, c);
    ValidatingStep(p, s, c);
    ValidateMoves(p, s, c);
  }

  lemma ValidatingStep(p: PolicySpec, s: State, c: Answers)
    requires Validates(p, s, c)
    ensures Step(p, s, c) == Validate(p, s, c)
  {
    hide Validate;
  }

  /** The production workload is patched exactly if every probe accepts and the calls on it succeed. */
  lemma PromotesIff(p: PolicySpec, s: State, c: Answers)
    requires Validates(p, s, c)
    ensures Promotes(p, s, c) <==>
      && (p.probes == [] || (SecretRead(p, s, c) && AllAccept(p, s.status, s.jobs, c)))
      && p.kind in {"", "Deployment", "StatefulSet", "DaemonSet", "Rollout"} && c.fetchTarget && c.patch
    ensures !IsRollout(p) && Promotes(p, s, c) && c.writeStatus ==>
      var st' := Step(p, s, c).status;
      st'.current == s.status.desired && st'.desired == "" && st'.failures == 0
  {
    hide Step, RunProbes, Set, Remove, SecretOf, DetermineState;
    OutcomeIff(p, s, c);
    if c.writeStatus {
      WrittenMoves(p, s, c);
    }
  }
}
