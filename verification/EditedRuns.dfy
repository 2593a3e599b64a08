/**
  Runs in which others edit the production workload between reconciles: what then has to hold for a
  promotion to be of what was validated, and exactly which runs guarantee it.
 */
module EditedRuns {
  import opened Options
  import opened Naming
  import opened PodTemplate
  import opened TemplateLaws
  import opened Conditions
  import opened Rotation
  import opened Safety
  import opened Progress
  import opened CanaryRuns

  /** An edit of the production template by someone else, if any, and then one reconcile. */
  datatype Move = Move(edit: Option<Template>, answers: Answers)

  function Edited(s: State, edit: Option<Template>): State {
    match edit
    case None => s
    case Some(t) => s.(template := t, generation := if t == s.template then s.generation else s.generation + 1)
  }

  /** The state, and the template the canary was cloned from if there is one. */
  datatype Watched = Watched(state: State, base: Template)

  function Watch(p: PolicySpec, w: Watched, m: Move): Watched {
    var s := Edited(w.state, m.edit);
    var s' := Step(p, s, m.answers);
    Watched(s', if s.canary.None? && s'.canary.Some? then s.template else w.base)
  }

  function WatchedRun(p: PolicySpec, w: Watched, ms: seq<Move>): Watched
    decreases |ms|
  {
    if |ms| == 0 then w else WatchedRun(p, Watch(p, w, ms[0]), ms[1..])
  }

  function Begin(s: State): Watched {
    Watched(s, s.template)
  }

  // ---------------------------------------------------------------- what holds under edits

  /** The canary is of the desired revision, cloned from the recorded template, and the breaker is closed. */
  predicate ClonedOk(p: PolicySpec, w: Watched) {
    var st := w.state.status;
    w.state.canary.Some? ==>
      && st.desired != "" && !Tripped(st)
      && w.state.canary.value == CanaryOf(BindingOf(p), st.current, st.desired, SecretOf(p, st.desired), w.base)
  }

  predicate DeletionsOk(ms: seq<Move>) {
    forall i :: 0 <= i < |ms| ==> ms[i].answers.deleteCanary
  }

  predicate WritesOk(ms: seq<Move>) {
    forall i :: 0 <= i < |ms| ==> ms[i].answers.writeStatus
  }

  /** A step removes the canary, keeps it and the two revisions, or makes the one that production asks for. */
  predicate CanaryMove(p: PolicySpec, s: State, s': State) {
    || s'.canary.None?
    || (s'.canary == s.canary && s'.status.current == s.status.current && s'.status.desired == s.status.desired
        && (s'.status.desired != "" && !Tripped(s.status) ==> !Tripped(s'.status)))
    || (s.canary.None? && s'.canary == Some(OwnCanary(p, s)) && s.status.desired != "" && !Tripped(s'.status)
        && s'.status.current == s.status.current && s'.status.desired == s.status.desired)
  }

  lemma StepMovesCanary(p: PolicySpec, s: State, c: Answers)
    requires !IsRollout(p) && StatusOk(p, s.status) && c.deleteCanary
    requires s.canary.Some? ==> s.status.desired != "" && !Tripped(s.status)
    ensures CanaryMove(p, s, Step(p, s, c))
  {
    hide Consult, ProvisionCanary, Validate, AwaitRollout, CleanedUp, Set, Remove, CanaryOf, BindingOf, SecretOf,
         RunProbes;
    StatusMoves(p, s, c);
    PhaseIsTheCondition(s.status);
    if c.getPolicy {
      if Consults(p, s.status) {
        ConsultCanary(p, s, c);
      } else if DetermineState(s.status) == At(RevisionPrepared) {
        ProvisionedCanary(p, s, c);
      } else if DetermineState(s.status) == At(Validating) {
        CanaryAfterValidation(p, s, c);
      }
    }
  }

  lemma EditKeeps(p: PolicySpec, s: State, edit: Option<Template>)
    ensures var s1 := Edited(s, edit);
      && s1.status == s.status && s1.canary == s.canary && s1.secrets == s.secrets
      && s1.jobs == s.jobs && s1.history == s.history
    ensures Standing(p, s) ==> Standing(p, Edited(s, edit))
  {
  }

  lemma WatchKeeps(p: PolicySpec, w: Watched, m: Move)
    requires !IsRollout(p) && StatusOk(p, w.state.status) && ClonedOk(p, w) && m.answers.deleteCanary
    ensures StatusOk(p, Watch(p, w, m).state.status) && ClonedOk(p, Watch(p, w, m))
    ensures m.answers.writeStatus && Standing(p, w.state) ==> Standing(p, Watch(p, w, m).state)
  {
    hide Step, StatusOk, CanaryOf, BindingOf, SecretOf, Standing, Edited;
    var s := Edited(w.state, m.edit);
    EditKeeps(p, w.state, m.edit);
    StepKeepsStatus(p, s, m.answers);
    StepMovesCanary(p, s, m.answers);
    if m.answers.writeStatus && Standing(p, w.state) {
      StepKeepsStanding(p, s, m.answers);
    }
  }

  lemma {:induction false} WatchedRunKeeps(p: PolicySpec, w: Watched, ms: seq<Move>)
    requires !IsRollout(p) && StatusOk(p, w.state.status) && ClonedOk(p, w) && DeletionsOk(ms)
    ensures var w' := WatchedRun(p, w, ms); StatusOk(p, w'.state.status) && ClonedOk(p, w')
    ensures WritesOk(ms) && Standing(p, w.state) ==> Standing(p, WatchedRun(p, w, ms).state)
    decreases |ms|
  {
    hide Watch, StatusOk, ClonedOk, Standing;
    if |ms| > 0 {
      WatchKeeps(p, w, ms[0]);
      WatchedRunKeeps(p, Watch(p, w, ms[0]), ms[1..]);
    }
  }

  /**
    In a run with edits in which no canary deletion fails, a canary that stands at a promotion is
    the promoted revision's own, cloned from the template recorded then; and its pod spec is the
    promoted one exactly if the canary's rewriting of that template and the promotion's rewriting
    of the template as it now is agree. With status writes accepted a canary always stands.
   */
  lemma ValidatedUnderEditsIff(p: PolicySpec, s: State, ms: seq<Move>, m: Move)
    requires !IsRollout(p) && Initial(p, s) && DeletionsOk(ms)
    requires Promotes(p, Edited(WatchedRun(p, Begin(s), ms).state, m.edit), m.answers)
    ensures var w := WatchedRun(p, Begin(s), ms); var s1 := Edited(w.state, m.edit);
      && (WritesOk(ms) ==> s1.canary.Some?)
      && (s1.canary.Some? ==>
          (PromotesValidated(p, s1, m.answers) <==>
           Rewritten(Canary, p, s1.status, w.base) == Rewritten(Promotion, p, s1.status, s1.template)))
  {
    hide WatchedRun, Step, StatusOk, BindingOf, SecretOf, Standing, Edited, RunProbes, RewriteSpec, Initial, Validates;
    InitialStands(p, s);
    NoCanaryAtFirst(p, s);
    WatchedRunKeeps(p, Begin(s), ms);
    var w := WatchedRun(p, Begin(s), ms);
    EditKeeps(p, w.state, m.edit);
    var s1 := Edited(w.state, m.edit);
    if WritesOk(ms) {
      StandsAtValidation(p, s1, m.answers);
    }
    ValidatesInPhase(p, s1, m.answers);
    ClusterMoves(p, s1, m.answers);
  }

  lemma NoCanaryAtFirst(p: PolicySpec, s: State)
    requires Initial(p, s)
    ensures s.canary.None?
  {
  }

  lemma ValidatesInPhase(p: PolicySpec, s: State, c: Answers)
    requires Validates(p, s, c)
    ensures DetermineState(s.status) == At(Validating)
  {
  }

  /** The pod spec that a rule makes of a template for the revisions of a status. */
  function Rewritten(rule: Rule, p: PolicySpec, st: Status, t: Template): PodSpec {
    RewriteSpec(rule, BindingOf(p), st.current, SecretOf(p, st.desired), t.spec)
  }

  /** With the variable bound explicitly both rules are one, so only the edits matter. */
  lemma BoundRulesAreOne(p: PolicySpec, st: Status, t: Template)
    requires BindingOf(p).envName != ""
    ensures Rewritten(Canary, p, st, t) == Rewritten(Promotion, p, st, t)
  {
    hide RewriteSpec, BindingOf, SecretOf;
    CanaryIsPromotion(BindingOf(p), st.current, st.desired, SecretOf(p, st.desired), t);
  }

  /**
    With the variable bound, what is promoted was validated exactly if the edits since the canary
    was cloned left alone everything but what the promotion overwrites.
   */
  lemma BoundIsValidatedIffLeftAlone(p: PolicySpec, s: State, ms: seq<Move>, m: Move)
    requires !IsRollout(p) && Initial(p, s) && DeletionsOk(ms) && WritesOk(ms) && BindingOf(p).envName != ""
    requires Promotes(p, Edited(WatchedRun(p, Begin(s), ms).state, m.edit), m.answers)
    ensures var w := WatchedRun(p, Begin(s), ms); var s1 := Edited(w.state, m.edit);
      PromotesValidated(p, s1, m.answers)
      <==> Rewritten(Promotion, p, s1.status, w.base) == Rewritten(Promotion, p, s1.status, s1.template)
  {
    hide WatchedRun, Edited, Rewritten, Promotes, Initial, PromotesValidated;
    ValidatedUnderEditsIff(p, s, ms, m);
    BoundRulesAreOne(p, Edited(WatchedRun(p, Begin(s), ms).state, m.edit).status, WatchedRun(p, Begin(s), ms).base);
  }

  // ---------------------------------------------------------------- runs without edits

  function Unedited(cs: seq<Answers>): (ms: seq<Move>)
    ensures |ms| == |cs| && forall i :: 0 <= i < |ms| ==> ms[i] == Move(None, cs[i])
  {
    seq(|cs|, i requires 0 <= i < |cs| => Move(None, cs[i]))
  }

  function AnswersOf(ms: seq<Move>): (cs: seq<Answers>)
    ensures |cs| == |ms| && forall i :: 0 <= i < |cs| ==> cs[i] == ms[i].answers
  {
    seq(|ms|, i requires 0 <= i < |ms| => ms[i].answers)
  }

  lemma {:induction false} UneditedRun(p: PolicySpec, w: Watched, ms: seq<Move>)
    requires forall i :: 0 <= i < |ms| ==> ms[i].edit.None?
    ensures WatchedRun(p, w, ms).state == Run(p, w.state, AnswersOf(ms))
    decreases |ms|
  {
    hide Step;
    if |ms| > 0 {
      UneditedRun(p, Watch(p, w, ms[0]), ms[1..]);
      assert AnswersOf(ms)[1..] == AnswersOf(ms[1..]);
    }
  }

  // ---------------------------------------------------------------- exactly when

  /** What may go wrong or change, besides all other calls. */
  datatype Faults = Faults(deleteCanary: bool, writeStatus: bool, edits: bool)

  predicate AdmitsMove(f: Faults, m: Move) {
    && (m.answers.deleteCanary || f.deleteCanary) && (m.answers.writeStatus || f.writeStatus)
    && (m.edit.None? || f.edits)
  }

  predicate Admits(f: Faults, ms: seq<Move>) {
    forall i :: 0 <= i < |ms| ==> AdmitsMove(f, ms[i])
  }

  /** Every promotion of every policy of this configuration, in any run with these faults, is of what was validated. */
  ghost predicate AlwaysValidated(p: PolicySpec, f: Faults) {
    forall q, s, ms, m: Move ::
      SameConfiguration(p, q) && !IsRollout(q) && Initial(q, s) && Admits(f, ms) && (m.edit.None? || f.edits)
      && Promotes(q, Edited(WatchedRun(q, Begin(s), ms).state, m.edit), m.answers) ==>
      PromotesValidated(q, Edited(WatchedRun(q, Begin(s), ms).state, m.edit), m.answers)
  }

  /** One promotion of what was not validated, in a run that the faults admit. */
  lemma OneIsEnough(p: PolicySpec, f: Faults, q: PolicySpec, s: State, ms: seq<Move>, m: Move)
    requires SameConfiguration(p, q) && !IsRollout(q) && Initial(q, s) && Admits(f, ms) && (m.edit.None? || f.edits)
    requires var s1 := Edited(WatchedRun(q, Begin(s), ms).state, m.edit);
      Promotes(q, s1, m.answers) && !PromotesValidated(q, s1, m.answers)
    ensures !AlwaysValidated(p, f)
  {
    hide WatchedRun, Promotes, PromotesValidated, Initial, Edited;
  }

  lemma UneditedIsEnough(p: PolicySpec, f: Faults, q: PolicySpec, s: State, cs: seq<Answers>, c: Answers)
    requires SameConfiguration(p, q) && !IsRollout(q) && Initial(q, s) && Admits(f, Unedited(cs))
    requires Promotes(q, Run(q, s, cs), c) && !PromotesValidated(q, Run(q, s, cs), c)
    ensures !AlwaysValidated(p, f)
  {
    hide WatchedRun, Run, Promotes, PromotesValidated, Initial, AlwaysValidated;
    UneditedRun(q, Begin(s), Unedited(cs));
    assert AnswersOf(Unedited(cs)) == cs;
    OneIsEnough(p, f, q, s, Unedited(cs), Move(None, c));
  }

  lemma ImplicitIsNotValidated(p: PolicySpec, f: Faults)
    requires BindingOf(p).envName == ""
    ensures !AlwaysValidated(p, f)
  {
    hide Run, Step, Promotes, PromotesValidated, Initial, AlwaysValidated;
    var q := p.(kind := "Deployment", probes := []);
    var h: Revision := "000000000000";
    var c := Smooth(h);
    KeyOnlyRun(q, h);
    UneditedIsEnough(p, f, q, StartWith(OneVariable(BindingOf(q), [KeyOnly(BindingOf(q))])), [c, c, c], c);
  }

  lemma StaleIsNotValidated(p: PolicySpec, f: Faults)
    requires BindingOf(p).envName != "" && f.deleteCanary
    ensures !AlwaysValidated(p, f)
  {
    hide Run, Step, Promotes, PromotesValidated, Initial, AlwaysValidated;
    var q := p.(kind := "Deployment", probes := []);
    var r1: Revision, r2: Revision := "000000000000", "111111111111";
    assert r1[0] != r2[0];
    StaleRun(q, r1, r2);
    var c1, c2 := Smooth(r1).(deleteCanary := false), Smooth(r2);
    UneditedIsEnough(p, f, q, StartWith(OneVariable(BindingOf(q), [])), [c1, c1, c1, c1] + [c2, c2, c2], c2);
  }

  lemma LostWriteIsNotValidated(p: PolicySpec, f: Faults)
    requires f.writeStatus
    ensures !AlwaysValidated(p, f)
  {
    hide Run, Step, Promotes, PromotesValidated, Initial, AlwaysValidated;
    var q := p.(kind := "Deployment", probes := []);
    var h: Revision := "000000000000";
    var c := Smooth(h);
    LostWriteRun(q, h);
    UneditedIsEnough(p, f, q, StartWith(OneVariable(BindingOf(q), [])), [c, c, c] + [c.(writeStatus := false)], c);
  }

  /** An edit between the validation and the promotion. */
  lemma LateEditRun(q: PolicySpec, h: Revision)
    requires !IsRollout(q) && ResolveKind(q.kind).Some? && q.probes == []
    ensures var c, t := Smooth(h), BARE.(spec := BARE.spec.(others := "edited"));
      var s1 := Edited(Run(q, StartWith(BARE), [c, c, c]), Some(t));
      Initial(q, StartWith(BARE)) && Promotes(q, s1, c) && !PromotesValidated(q, s1, c)
  {
    hide Run, Step, BindingOf, Initial, OwnRevisions, Managed, StatusOk;
    var c, t := Smooth(h), BARE.(spec := BARE.spec.(others := "edited"));
    BareIsInitial(q);
    ReachPromotion(q, StartWith(BARE), h);
    var s3 := Run(q, StartWith(BARE), [c, c, c]);
    assert Promotes(q, s3, c);
    var s1 := Edited(s3, Some(t));
    assert Promotes(q, s1, c);
    ClusterMoves(q, s1, c);
  }

  lemma EditIsNotValidated(p: PolicySpec, f: Faults)
    requires f.edits
    ensures !AlwaysValidated(p, f)
  {
    hide Run, Step, Promotes, PromotesValidated, Initial, AlwaysValidated, Edited, WatchedRun;
    var q := p.(kind := "Deployment", probes := []);
    var h: Revision := "000000000000";
    var c := Smooth(h);
    LateEditRun(q, h);
    var ms := Unedited([c, c, c]);
    UneditedRun(q, Begin(StartWith(BARE)), ms);
    assert AnswersOf(ms) == [c, c, c];
    OneIsEnough(p, f, q, StartWith(BARE), ms, Move(Some(BARE.(spec := BARE.spec.(others := "edited"))), c));
  }

  lemma UndisturbedIsValidated(q: PolicySpec, s: State, ms: seq<Move>, m: Move)
    requires !IsRollout(q) && Initial(q, s) && Admits(Faults(false, false, false), ms) && m.edit.None?
    requires BindingOf(q).envName != ""
    requires Promotes(q, Edited(WatchedRun(q, Begin(s), ms).state, m.edit), m.answers)
    ensures PromotesValidated(q, Edited(WatchedRun(q, Begin(s), ms).state, m.edit), m.answers)
  {
    hide Run, WatchedRun, Promotes, PromotesValidated, Initial, Step;
    UneditedRun(q, Begin(s), ms);
    ValidatedIsPromoted(q, s, AnswersOf(ms), m.answers);
  }

  /**
    What is promoted was validated, over all runs of a configuration, if and only if no canary
    deletion and no status write fails, nobody else edits the workload, and the variable is bound
    explicitly.
   */
  lemma AlwaysValidatedIff(p: PolicySpec, f: Faults)
    ensures AlwaysValidated(p, f) <==> f == Faults(false, false, false) && BindingOf(p).envName != ""
  {
    if BindingOf(p).envName == "" {
      ImplicitIsNotValidated(p, f);
    } else if f.deleteCanary {
      StaleIsNotValidated(p, f);
    } else if f.writeStatus {
      LostWriteIsNotValidated(p, f);
    } else if f.edits {
      EditIsNotValidated(p, f);
    } else {
      hide WatchedRun, Promotes, PromotesValidated, Initial, Edited;
      forall q, s, ms, m: Move |
        SameConfiguration(p, q) && !IsRollout(q) && Initial(q, s) && Admits(f, ms) && (m.edit.None? || f.edits)
        && Promotes(q, Edited(WatchedRun(q, Begin(s), ms).state, m.edit), m.answers)
        ensures PromotesValidated(q, Edited(WatchedRun(q, Begin(s), ms).state, m.edit), m.answers)
      {
        UndisturbedIsValidated(q, s, ms, m);
      }
    }
  }

  // ---------------------------------------------------------------- isolation under edits

  /** The own revisions that the edits mounted. */
  function Brought(p: PolicySpec, ms: seq<Move>): set<string> {
    if |ms| == 0 then {}
    else (if ms[0].edit.Some? then OwnRevisions(p, ms[0].edit.value) else {}) + Brought(p, ms[1..])
  }

  /** What production mounts passed all probes, or was brought by an edit. */
  ghost predicate MountedFrom(p: PolicySpec, s: State, brought: set<string>) {
    forall n :: n in OwnRevisions(p, s.template) ==> n in brought || PassedName(p, s, n)
  }

  ghost predicate PassedName(p: PolicySpec, s: State, n: string) {
    exists r :: r in s.history.passed && n == SecretOf(p, r)
  }

  lemma StepKeepsMountedFrom(p: PolicySpec, s: State, c: Answers, brought: set<string>)
    requires !IsRollout(p) && StatusOk(p, s.status) && MountedFrom(p, s, brought)
    ensures MountedFrom(p, Step(p, s, c), brought)
  {
    hide Step, Promoted, RunProbes, Refs, SecretOf, Managed, BindingOf;
    PhaseIsTheCondition(s.status);
    HistoryMoves(p, s, c);
    ClusterMoves(p, s, c);
    PromotedRefs(BindingOf(p), s.status.current, s.status.desired, SecretOf(p, s.status.desired), s.template);
    var s' := Step(p, s, c);
    forall n | n in OwnRevisions(p, s'.template) ensures n in brought || PassedName(p, s', n) {
      if Promotes(p, s, c) && n == SecretOf(p, s.status.desired) {
        assert s.status.desired in s'.history.passed;
      } else {
        assert n in OwnRevisions(p, s.template);
        if n !in brought {
          var r :| r in s.history.passed && n == SecretOf(p, r);
          assert r in s'.history.passed;
        }
      }
    }
  }

  lemma {:induction false} WatchedRunKeepsMountedFrom(p: PolicySpec, w: Watched, ms: seq<Move>, brought: set<string>)
    requires !IsRollout(p) && StatusOk(p, w.state.status) && MountedFrom(p, w.state, brought)
    ensures MountedFrom(p, WatchedRun(p, w, ms).state, brought + Brought(p, ms))
    decreases |ms|
  {
    hide Step, StatusOk, OwnRevisions, PassedName;
    if |ms| > 0 {
      var s := Edited(w.state, ms[0].edit);
      var more := brought + if ms[0].edit.Some? then OwnRevisions(p, ms[0].edit.value) else {};
      forall n | n in OwnRevisions(p, s.template) ensures n in more || PassedName(p, s, n) {
        SamePassed(p, w.state, s, n);
      }
      StepKeepsStatus(p, s, ms[0].answers);
      StepKeepsMountedFrom(p, s, ms[0].answers, more);
      WatchedRunKeepsMountedFrom(p, Watch(p, w, ms[0]), ms[1..], more);
      assert more + Brought(p, ms[1..]) == brought + Brought(p, ms);
    } else {
      assert brought + {} == brought;
    }
  }

  lemma SamePassed(p: PolicySpec, s: State, t: State, n: string)
    requires t.history == s.history
    ensures PassedName(p, s, n) == PassedName(p, t, n)
  {
  }

  /**
    Even if others edit the workload, every own revision that production mounts was brought by such
    an edit or passed the whole probe list.
   */
  lemma IsolationUnderEdits(p: PolicySpec, s: State, ms: seq<Move>)
    requires !IsRollout(p) && Initial(p, s)
    ensures MountedFrom(p, WatchedRun(p, Begin(s), ms).state, Brought(p, ms))
  {
    hide WatchedRun, OwnRevisions, Brought;
    InitialStands(p, s);
    WatchedRunKeepsMountedFrom(p, Begin(s), ms, {});
    assert {} + Brought(p, ms) == Brought(p, ms);
  }
}
