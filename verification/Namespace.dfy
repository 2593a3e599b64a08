/**
  Several policies in one namespace: their reconciles interleave in any order over one shared
  set of secrets.
 */
module Namespace {
  import opened Naming
  import opened Conditions
  import opened PodTemplate
  import opened TemplateLaws
  import opened Rotation
  import opened Safety
  import opened Progress

  /** The shared secrets, and for each policy everything else its reconciles read and write. */
  datatype World = World(secrets: map<string, Labels>, locals: map<string, State>)

  type Policies = map<string, PolicySpec>

  predicate WellNamed(ps: Policies) {
    forall n :: n in ps ==> ps[n].name == n
  }

  function TargetObject(p: PolicySpec): string {
    p.target + "-" + Managed(p)
  }

  predicate Distinct(ps: Policies) {
    forall m, n :: m in ps && n in ps && m != n ==> TargetObject(ps[m]) != TargetObject(ps[n])
  }

  function View(w: World, n: string): State
    requires n in w.locals
  {
    w.locals[n].(secrets := w.secrets)
  }

  predicate Fits(ps: Policies, w: World) {
    ps.Keys == w.locals.Keys
  }

  function WorldStep(ps: Policies, w: World, n: string, c: Answers): World
    requires Fits(ps, w)
  {
    if n !in ps then w
    else
      var s := Step(ps[n], View(w, n), c);
      World(s.secrets, w.locals[n := s])
  }

  function WorldRun(ps: Policies, w: World, moves: seq<(string, Answers)>): World
    requires Fits(ps, w)
    decreases |moves|
  {
    if |moves| == 0 then w else WorldRun(ps, WorldStep(ps, w, moves[0].0, moves[0].1), moves[1..])
  }

  // ---------------------------------------------------------------- what a step does to the secrets

  predicate Owned(p: PolicySpec, l: Labels) {
    l.policy == p.name && l.target == p.target
  }

  /** The revisions a step may leave in the status. */
  predicate NamesMove(st: Status, st': Status, c: Answers) {
    && (st'.current == st.current || st'.current == st.desired)
    && (st'.desired == st.desired || st'.desired == "" || (c.upstream.Some? && st'.desired == c.upstream.value))
  }

  predicate SecretsMove(p: PolicySpec, s: State, s': State, c: Answers) {
    || s'.secrets == s.secrets
    || (c.upstream.Some? && s'.secrets == Materialized(p, s.secrets, c.upstream.value))
    || s'.secrets == Collected(p, s.status, s.secrets, c)
  }

  lemma ProvisionMoves(p: PolicySpec, s: State, c: Answers)
    ensures var s' := Provision(p, s, c); s'.secrets == s.secrets && NamesMove(s.status, s'.status, c)
  {
  }

  lemma AwaitMoves(p: PolicySpec, s: State, c: Answers)
    ensures var s' := AwaitRollout(p, s, c); SecretsMove(p, s, s', c) && NamesMove(s.status, s'.status, c)
  {
  }

  lemma ValidateNames(p: PolicySpec, s: State, c: Answers)
    ensures var s' := Validate(p, s, c); SecretsMove(p, s, s', c) && NamesMove(s.status, s'.status, c)
  {
    hide Validate, Set, Remove, Collected, Materialized, Promoted, RunProbes, BindingOf, SecretOf;
    ValidateMoves(p, s, c);
    ValidateStatusMoves(p, s, c);
  }

  /** Whatever the kind of workload, a step creates one secret, or collects, or leaves the secrets alone. */
  lemma SecretMoves(p: PolicySpec, s: State, c: Answers)
    ensures var s' := Step(p, s, c); SecretsMove(p, s, s', c) && NamesMove(s.status, s'.status, c)
  {
    hide Consult, Provision, Validate, AwaitRollout, Collected, Materialized;
    CleanupKeepsStatus(p, s, c);
    if c.getPolicy {
      if Consults(p, s.status) {
        ConsultMoves(p, s, c);
        ConsultStatus(p, s, c);
      } else if DetermineState(s.status) == At(RevisionPrepared) {
        ProvisionMoves(p, s, c);
      } else if DetermineState(s.status) == At(RolloutProgressing) {
        AwaitMoves(p, s, c);
      } else if DetermineState(s.status) == At(Validating) {
        ValidateNames(p, s, c);
      }
    }
  }

  // ---------------------------------------------------------------- isolation

  predicate RevisionOrNone(r: string) {
    r == "" || |r| == 12
  }

  /** The policy's revisions and its own labels are hashes of twelve characters. */
  predicate HashesOk(p: PolicySpec, s: State) {
    && RevisionOrNone(s.status.current) && RevisionOrNone(s.status.desired)
    && forall n :: n in s.secrets && Owned(p, s.secrets[n]) ==> |s.secrets[n].revision| == 12
  }

  predicate PolicyOk(p: PolicySpec, s: State) {
    NamesOk(p, s) && HashesOk(p, s)
  }

  ghost predicate WorldOk(ps: Policies, w: World) {
    && Fits(ps, w) && WellNamed(ps)
    && forall n :: n in ps ==> PolicyOk(ps[n], View(w, n))
  }

  lemma StepKeepsHashes(p: PolicySpec, s: State, c: Answers)
    requires HashesOk(p, s)
    ensures HashesOk(p, Step(p, s, c))
  {
    SecretMoves(p, s, c);
  }

  /** Another policy's step neither removes a secret this policy names nor disturbs its labels. */
  lemma OtherStepSpares(p: PolicySpec, s: State, q: PolicySpec, t: State, c: Answers)
    requires p.name != q.name && TargetObject(p) != TargetObject(q)
    requires s.secrets == t.secrets && PolicyOk(p, s) && PolicyOk(q, t)
    ensures PolicyOk(p, s.(secrets := Step(q, t, c).secrets))
  {
    SecretMoves(q, t, c);
    forall r | r in {s.status.current, s.status.desired} && r != ""
      ensures SecretOf(p, r) in Step(q, t, c).secrets
    {
      var n := SecretOf(p, r);
      if Owned(q, t.secrets[n]) {
        SecretNameInjective(p.target, Managed(p), r, q.target, Managed(q), t.secrets[n].revision);
      }
    }
  }

  lemma WorldStepKeeps(ps: Policies, w: World, n: string, c: Answers)
    requires WorldOk(ps, w) && Distinct(ps)
    ensures WorldOk(ps, WorldStep(ps, w, n, c))
  {
    if n in ps {
      var w' := WorldStep(ps, w, n, c);
      StepKeepsNames(ps[n], View(w, n), c);
      StepKeepsHashes(ps[n], View(w, n), c);
      assert View(w', n) == Step(ps[n], View(w, n), c);
      forall m | m in ps && m != n ensures PolicyOk(ps[m], View(w', m)) {
        OtherStepSpares(ps[m], View(w, m), ps[n], View(w, n), c);
        assert View(w', m) == View(w, m).(secrets := w'.secrets);
      }
    }
  }

  /**
    For any interleaving of policies whose target-object strings are pairwise distinct, the
    secrets that each policy names as current or desired exist at every point.
   */
  lemma {:induction false} CollectionIsIsolated(ps: Policies, w: World, moves: seq<(string, Answers)>)
    requires WorldOk(ps, w) && Distinct(ps)
    ensures var w' := WorldRun(ps, w, moves);
      && WorldOk(ps, w')
      && forall n :: n in ps ==>
        Named(ps[n], w'.secrets, w'.locals[n].status.current) && Named(ps[n], w'.secrets, w'.locals[n].status.desired)
    decreases |moves|
  {
    if |moves| > 0 {
      WorldStepKeeps(ps, w, moves[0].0, moves[0].1);
      CollectionIsIsolated(ps, WorldStep(ps, w, moves[0].0, moves[0].1), moves[1..]);
    } else {
      forall n | n in ps ensures
        Named(ps[n], w.secrets, w.locals[n].status.current) && Named(ps[n], w.secrets, w.locals[n].status.desired)
      {
        assert PolicyOk(ps[n], View(w, n));
      }
    }
  }

  // ---------------------------------------------------------------- when the strings coincide

  function Solo(n: string, cs: seq<Answers>): seq<(string, Answers)> {
    seq(|cs|, i requires 0 <= i < |cs| => (n, cs[i]))
  }

  lemma {:induction false} SoloRun(ps: Policies, w: World, n: string, cs: seq<Answers>)
    requires Fits(ps, w) && n in ps
    ensures var w' := WorldRun(ps, w, Solo(n, cs));
      && Fits(ps, w') && View(w', n) == Run(ps[n], View(w, n), cs)
      && forall m :: m in ps && m != n ==> w'.locals[m] == w.locals[m]
    decreases |cs|
  {
    if |cs| > 0 {
      var w1 := WorldStep(ps, w, n, cs[0]);
      assert View(w1, n) == Step(ps[n], View(w, n), cs[0]);
      assert Solo(n, cs)[1..] == Solo(n, cs[1..]);
      SoloRun(ps, w1, n, cs[1..]);
    }
  }

  lemma WorldRunConcat(ps: Policies, w: World, xs: seq<(string, Answers)>, ys: seq<(string, Answers)>)
    requires Fits(ps, w)
    ensures Fits(ps, WorldRun(ps, w, xs))
    ensures WorldRun(ps, w, xs + ys) == WorldRun(ps, WorldRun(ps, w, xs), ys)
    decreases |xs|
  {
    if |xs| == 0 {
      assert xs + ys == ys;
    } else {
      assert (xs + ys)[1..] == xs[1..] + ys;
      WorldRunConcat(ps, WorldStep(ps, w, xs[0].0, xs[0].1), xs[1..], ys);
    }
  }

  /** Four reconciles of one policy alone. */
  function Rotate(n: string, h: Revision): seq<(string, Answers)> {
    Solo(n, [Smooth(h), Smooth(h), Smooth(h), Smooth(h)])
  }

  predicate AtRest(p: PolicySpec, s: State, current: string) {
    StatusOk(p, s.status) && s.status.desired == "" && s.status.current == current
  }

  predicate Simple(p: PolicySpec) {
    !IsRollout(p) && ResolveKind(p.kind).Some? && p.probes == []
  }

  lemma RotateAlone(ps: Policies, w: World, n: string, current: string, h: Revision)
    requires Fits(ps, w) && n in ps && Simple(ps[n]) && AtRest(ps[n], View(w, n), current) && current != h
    ensures var w' := WorldRun(ps, w, Rotate(n, h));
      && Fits(ps, w') && AtRest(ps[n], View(w', n), h)
      && w'.secrets == Collected(ps[n], Status(current, h, 0, []), Materialized(ps[n], w.secrets, h), Smooth(h))
      && forall m :: m in ps && m != n ==> w'.locals[m] == w.locals[m]
  {
    var c := Smooth(h);
    SoloRun(ps, w, n, [c, c, c, c]);
    OneRotation(ps[n], View(w, n), h, c);
  }

  predicate Colliding(ps: Policies, m: string, n: string) {
    && m in ps && n in ps && m != n && WellNamed(ps) && Simple(ps[m]) && Simple(ps[n])
    && TargetObject(ps[m]) == TargetObject(ps[n])
  }

  predicate HoldsFirst(p: PolicySpec, secrets: map<string, Labels>, r: string) {
    SecretOf(p, r) in secrets && secrets[SecretOf(p, r)] == Labels(p.name, p.target, r)
  }

  lemma SameSecret(p: PolicySpec, q: PolicySpec, r: Revision)
    requires TargetObject(p) == TargetObject(q)
    ensures SecretOf(p, r) == SecretOf(q, r)
  {
    SecretNameInjective(p.target, Managed(p), r, q.target, Managed(q), r);
  }

  /** The first policy makes the secret, and the second takes it over. */
  lemma TakeOver(ps: Policies, w: World, m: string, n: string, r1: Revision)
    requires Fits(ps, w) && Colliding(ps, m, n) && w.secrets == map[]
    requires AtRest(ps[m], View(w, m), "") && AtRest(ps[n], View(w, n), "")
    ensures var w2 := WorldRun(ps, w, Rotate(m, r1) + Rotate(n, r1));
      && Fits(ps, w2) && AtRest(ps[m], View(w2, m), r1) && AtRest(ps[n], View(w2, n), r1)
      && HoldsFirst(ps[m], w2.secrets, r1)
  {
    RotateAlone(ps, w, m, "", r1);
    var w1 := WorldRun(ps, w, Rotate(m, r1));
    assert HoldsFirst(ps[m], w1.secrets, r1);
    SameSecret(ps[m], ps[n], r1);
    RotateAlone(ps, w1, n, "", r1);
    WorldRunConcat(ps, w, Rotate(m, r1), Rotate(n, r1));
    var w2 := WorldRun(ps, w1, Rotate(n, r1));
    assert View(w2, m).status == View(w1, m).status;
  }

  /** The first policy's next two rotations collect it. */
  lemma TakeAway(ps: Policies, w: World, m: string, r1: Revision, r2: Revision, r3: Revision)
    requires Fits(ps, w) && m in ps && WellNamed(ps) && Simple(ps[m])
    requires AtRest(ps[m], View(w, m), r1) && HoldsFirst(ps[m], w.secrets, r1)
    requires r1 != r2 && r1 != r3 && r2 != r3
    ensures var w' := WorldRun(ps, w, Rotate(m, r2) + Rotate(m, r3));
      && Fits(ps, w') && SecretOf(ps[m], r1) !in w'.secrets
      && forall k :: k in ps && k != m ==> w'.locals[k] == w.locals[k]
  {
    hide SecretOf, WorldRun, Managed, Rotate, StatusOk;
    var p := ps[m];
    SecretOfInjective(p, r1, r2);
    SecretOfInjective(p, r1, r3);
    RotateAlone(ps, w, m, r1, r2);
    var w1 := WorldRun(ps, w, Rotate(m, r2));
    assert HoldsFirst(p, w1.secrets, r1);
    RotateAlone(ps, w1, m, r2, r3);
    WorldRunConcat(ps, w, Rotate(m, r2), Rotate(m, r3));
  }

  /**
    Distinctness is needed: of two policies with the same target-object string, the second takes
    over the first one's secret as its own, and the first one's next rotations delete it.
   */
  lemma CollidingPoliciesLoseSecrets(ps: Policies, w: World, m: string, n: string, r1: Revision, r2: Revision,
                                     r3: Revision)
    returns (moves: seq<(string, Answers)>)
    requires Fits(ps, w) && Colliding(ps, m, n) && w.secrets == map[]
    requires AtRest(ps[m], View(w, m), "") && AtRest(ps[n], View(w, n), "")
    requires r1 != r2 && r1 != r3 && r2 != r3
    ensures var w' := WorldRun(ps, w, moves);
      && Fits(ps, w') && w'.locals[n].status.current == r1 && SecretOf(ps[n], r1) !in w'.secrets
  {
    TakeOver(ps, w, m, n, r1);
    var w2 := WorldRun(ps, w, Rotate(m, r1) + Rotate(n, r1));
    TakeAway(ps, w2, m, r1, r2, r3);
    SameSecret(ps[m], ps[n], r1);
    moves := Rotate(m, r1) + Rotate(n, r1) + (Rotate(m, r2) + Rotate(m, r3));
    WorldRunConcat(ps, w, Rotate(m, r1) + Rotate(n, r1), Rotate(m, r2) + Rotate(m, r3));
  }

  // ---------------------------------------------------------------- exactly when

  /** The same policies by name, alike in what their secrets are named after. */
  predicate SameShape(ps: Policies, qs: Policies) {
    qs.Keys == ps.Keys && forall n :: n in ps ==> SameConfiguration(ps[n], qs[n])
  }

  /** New policies over secrets that are named and labelled as the operator does it. */
  ghost predicate InitialWorld(ps: Policies, w: World) {
    WorldOk(ps, w) && forall n :: n in ps ==> w.locals[n].status == Status("", "", 0, [])
  }

  ghost predicate NamesExist(ps: Policies, w: World, n: string)
    requires n in ps && n in w.locals
  {
    Named(ps[n], w.secrets, w.locals[n].status.current) && Named(ps[n], w.secrets, w.locals[n].status.desired)
  }

  /** No policies of this shape ever lose a secret that one of them names, in any interleaving. */
  ghost predicate NeverLoses(ps: Policies) {
    forall qs, w, moves, n | SameShape(ps, qs) && InitialWorld(qs, w) && n in qs ::
      n in WorldRun(qs, w, moves).locals && NamesExist(qs, WorldRun(qs, w, moves), n)
  }

  /** The policies as Deployments without probes. */
  function Simplified(ps: Policies): Policies {
    map n | n in ps :: ps[n].(name := n, kind := "Deployment", probes := [])
  }

  function EmptyWorld(ps: Policies): World {
    World(map[], map n | n in ps :: StartWith(BARE))
  }

  lemma EmptyIsInitial(ps: Policies)
    requires WellNamed(ps)
    ensures InitialWorld(ps, EmptyWorld(ps))
  {
    hide SecretOf;
    forall n | n in ps ensures PolicyOk(ps[n], View(EmptyWorld(ps), n)) {
    }
  }

  lemma SharedNameLoses(ps: Policies, m: string, n: string)
    requires m in ps && n in ps && m != n && TargetObject(ps[m]) == TargetObject(ps[n])
    ensures !NeverLoses(ps)
  {
    hide WorldRun, SecretOf, InitialWorld, StatusOk;
    var qs := Simplified(ps);
    var w := EmptyWorld(qs);
    EmptyIsInitial(qs);
    FreshAtRest(qs[m], View(w, m));
    FreshAtRest(qs[n], View(w, n));
    var r1: Revision, r2: Revision, r3: Revision := "000000000000", "111111111111", "222222222222";
    assert r1[0] != r2[0] && r1[0] != r3[0] && r2[0] != r3[0];
    var moves := CollidingPoliciesLoseSecrets(qs, w, m, n, r1, r2, r3);
    assert SameShape(ps, qs) && !NamesExist(qs, WorldRun(qs, w, moves), n);
  }

  lemma FreshAtRest(p: PolicySpec, s: State)
    requires s.status == Status("", "", 0, [])
    ensures AtRest(p, s, "")
  {
  }

  /**
    Policies in one namespace never lose a secret that one of them names, in any interleaving and
    whatever their kinds and probes, if and only if their target-object strings are pairwise
    distinct.
   */
  lemma NeverLosesIffDistinct(ps: Policies)
    ensures NeverLoses(ps) <==> Distinct(ps)
  {
    hide WorldRun, PolicyOk, SecretOf;
    if Distinct(ps) {
      forall qs, w, moves, n | SameShape(ps, qs) && InitialWorld(qs, w) && n in qs
        ensures n in WorldRun(qs, w, moves).locals && NamesExist(qs, WorldRun(qs, w, moves), n)
      {
        DistinctKeeps(ps, qs, w, moves, n);
      }
    } else {
      var m, n :| m in ps && n in ps && m != n && TargetObject(ps[m]) == TargetObject(ps[n]);
      SharedNameLoses(ps, m, n);
    }
  }

  lemma DistinctKeeps(ps: Policies, qs: Policies, w: World, moves: seq<(string, Answers)>, n: string)
    requires Distinct(ps) && SameShape(ps, qs) && InitialWorld(qs, w) && n in qs
    ensures n in WorldRun(qs, w, moves).locals && NamesExist(qs, WorldRun(qs, w, moves), n)
  {
    hide WorldRun, SecretOf, PolicyOk;
    forall k, l | k in qs && l in qs && k != l ensures TargetObject(qs[k]) != TargetObject(qs[l]) {
      assert TargetObject(qs[k]) == TargetObject(ps[k]) && TargetObject(qs[l]) == TargetObject(ps[l]);
    }
    CollectionIsIsolated(qs, w, moves);
  }

  // ---------------------------------------------------------------- what each production mounts

  /** Every own reference of production ends in a hash. */
  predicate MountsHashes(p: PolicySpec, t: Template) {
    forall n :: n in OwnRevisions(p, t) ==> |n| == |RevisionPrefix(p.target, Managed(p))| + 12
  }

  ghost predicate MountsOk(p: PolicySpec, s: State) {
    StatusOk(p, s.status) && ExistenceOk(p, s) && MountsHashes(p, s.template)
  }

  lemma StepKeepsMountedHashes(p: PolicySpec, s: State, c: Answers)
    requires !IsRollout(p) && StatusOk(p, s.status) && HashesOk(p, s) && MountsHashes(p, s.template)
    ensures MountsHashes(p, Step(p, s, c).template)
  {
    hide Step, Promoted, RunProbes, ResolveKind, Refs, StatusOk, Managed, BindingOf;
    TemplateMoves(p, s, c);
    PromotedRefs(BindingOf(p), s.status.current, s.status.desired, SecretOf(p, s.status.desired), s.template);
    if Promotes(p, s, c) {
      PromotedIsDesired(p, s, c);
    }
  }

  lemma TemplateMoves(p: PolicySpec, s: State, c: Answers)
    requires !IsRollout(p) && StatusOk(p, s.status)
    ensures var s' := Step(p, s, c);
      if Promotes(p, s, c)
      then s'.template == Promoted(BindingOf(p), s.status.current, s.status.desired, SecretOf(p, s.status.desired), s.template)
      else s'.template == s.template
  {
    hide Step, Promoted, RunProbes, SecretOf, BindingOf;
    PhaseIsTheCondition(s.status);
    ClusterMoves(p, s, c);
  }

  lemma PromotedIsDesired(p: PolicySpec, s: State, c: Answers)
    requires Promotes(p, s, c)
    ensures s.status.desired != ""
  {
  }

  /** Another policy's step leaves alone what this one's production mounts. */
  lemma OtherStepSparesMounts(p: PolicySpec, s: State, q: PolicySpec, t: State, c: Answers)
    requires p.name != q.name && TargetObject(p) != TargetObject(q)
    requires s.secrets == t.secrets && PolicyOk(p, s) && PolicyOk(q, t) && MountsOk(p, s)
    ensures MountsOk(p, s.(secrets := Step(q, t, c).secrets))
  {
    hide Step, SecretOf, Covered, StatusOk, Own, Owned, Refs, SecretsMove, HashesOk, NamesMove, Managed, TargetObject;
    OtherStepSpares(p, s, q, t, c);
    SecretMoves(q, t, c);
    forall n | n in OwnRevisions(p, s.template) ensures n in Step(q, t, c).secrets {
      OwnIsNotOthers(p, q, t, n);
      UnownedStays(q, t, Step(q, t, c), c, n);
    }
  }

  lemma OwnIsNotOthers(p: PolicySpec, q: PolicySpec, t: State, n: string)
    requires TargetObject(p) != TargetObject(q) && PolicyOk(q, t) && n in t.secrets
    requires Own(BindingOf(p), Managed(p), n) && |n| == |RevisionPrefix(p.target, Managed(p))| + 12
    ensures !Owned(q, t.secrets[n])
  {
    hide Managed, BindingOf, StatusOk, Named;
    var r := n[|RevisionPrefix(p.target, Managed(p))|..];
    OwnIsSecret(p, n, r);
    if Owned(q, t.secrets[n]) {
      NamedByLabel(q, t.secrets, n);
      SecretNameInjective(p.target, Managed(p), r, q.target, Managed(q), t.secrets[n].revision);
    }
  }

  /** A step removes no secret but the policy's own. */
  lemma UnownedStays(q: PolicySpec, t: State, t': State, c: Answers, n: string)
    requires SecretsMove(q, t, t', c) && n in t.secrets && !Owned(q, t.secrets[n])
    ensures n in t'.secrets
  {
    hide SecretOf;
  }

  lemma OwnIsSecret(p: PolicySpec, n: string, r: string)
    requires Own(BindingOf(p), Managed(p), n) && r == n[|RevisionPrefix(p.target, Managed(p))|..]
    ensures n == SecretOf(p, r)
  {
  }

  lemma NamedByLabel(q: PolicySpec, secrets: map<string, Labels>, n: string)
    requires LabelsOk(q, secrets) && n in secrets && Owned(q, secrets[n])
    ensures n == SecretName(q.target, Managed(q), secrets[n].revision)
  {
  }

  lemma WorldStepKeepsMounts(ps: Policies, w: World, n: string, m: string, c: Answers)
    requires WorldOk(ps, w) && Distinct(ps) && n in ps
    requires !IsRollout(ps[n]) && Steady(BindingOf(ps[n]), Managed(ps[n])) && MountsOk(ps[n], View(w, n))
    ensures MountsOk(ps[n], View(WorldStep(ps, w, m, c), n))
  {
    hide Step, MountsHashes, ExistenceOk, StatusOk, Steady, HashesOk, NamesOk, Managed, IsRollout;
    if m in ps {
      if m == n {
        StepKeepsStatus(ps[n], View(w, n), c);
        StepKeepsExistence(ps[n], View(w, n), c);
        StepKeepsMountedHashes(ps[n], View(w, n), c);
        assert View(WorldStep(ps, w, m, c), n) == Step(ps[n], View(w, n), c);
      } else {
        OtherStepSparesMounts(ps[n], View(w, n), ps[m], View(w, m), c);
        assert View(WorldStep(ps, w, m, c), n) == View(w, n).(secrets := WorldStep(ps, w, m, c).secrets);
      }
    }
  }

  lemma {:induction false} WorldRunKeepsMounts(ps: Policies, w: World, n: string, moves: seq<(string, Answers)>)
    requires WorldOk(ps, w) && Distinct(ps) && n in ps
    requires !IsRollout(ps[n]) && Steady(BindingOf(ps[n]), Managed(ps[n])) && MountsOk(ps[n], View(w, n))
    ensures n in WorldRun(ps, w, moves).locals && MountsOk(ps[n], View(WorldRun(ps, w, moves), n))
    decreases |moves|
  {
    hide Step, MountsOk, Steady, Distinct, PolicyOk;
    if |moves| > 0 {
      WorldStepKeepsMounts(ps, w, n, moves[0].0, moves[0].1);
      WorldStepKeeps(ps, w, moves[0].0, moves[0].1);
      WorldRunKeepsMounts(ps, WorldStep(ps, w, moves[0].0, moves[0].1), n, moves[1..]);
    }
  }

  /**
    Among policies of any kind whose target-object strings are pairwise distinct, a fitting policy of
    a Deployment, StatefulSet or DaemonSet leaves no dangling reference in any interleaving.
   */
  lemma NoDanglingInterleaved(ps: Policies, w: World, n: string, moves: seq<(string, Answers)>)
    requires InitialWorld(ps, w) && Distinct(ps) && n in ps
    requires !IsRollout(ps[n]) && Steady(BindingOf(ps[n]), Managed(ps[n])) && OwnRevisions(ps[n], w.locals[n].template) == {}
    ensures n in WorldRun(ps, w, moves).locals && NoDangling(ps[n], View(WorldRun(ps, w, moves), n))
  {
    hide WorldRun, Steady, Distinct;
    InitialMounts(ps, w, n);
    WorldRunKeepsMounts(ps, w, n, moves);
  }

  lemma InitialMounts(ps: Policies, w: World, n: string)
    requires InitialWorld(ps, w) && n in ps && OwnRevisions(ps[n], w.locals[n].template) == {}
    ensures MountsOk(ps[n], View(w, n))
  {
    hide SecretOf;
    assert PolicyOk(ps[n], View(w, n));
    UntouchedIsCovered(BindingOf(ps[n]), Managed(ps[n]), w.locals[n].template);
  }
}
