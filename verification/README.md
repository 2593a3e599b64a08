# The rotation engine of the Dynamic Secret Operator

This project models how the operator rotates a secret through a workload, and proves what every
run of it keeps. `dafny verify dfyconfig.toml` checks all of it. The files follow the operator's
components:

- **One reconcile.** `Rotation.dfy` defines `Step`, the state after one reconcile as a function of
  the state before and of what every API call answers; `Run` is any number of them. The upstream
  revision, probe verdicts, the phase of an Argo Rollout and the failure of each call are inputs
  nobody controls. A stored status changes only where the code writes it, and what a call did to
  the cluster before a later one failed stays done. `Reconciler.dfy` has the same reconcile as
  methods that change a cluster call by call; `Reconcile` is proved to do what `Step` says.
  `Conditions.dfy` is the condition list.
- **Pod templates.** `PodTemplate.dfy` has the loops that rewrite secret references in place, for the
  promotion and for the canary, each proved equal to a function on the whole template.
  `TemplateLaws.dfy` proves when the two copies agree, how rotations compose, and which references
  a rewriting can leave behind; `Adoption.dfy` which references a rewriting takes over, by name, and
  which pods a selector finds. `ProbeJob.dfy` builds and reads the Job of a Job probe.
- **Runs.** `Safety.dfy` (phases, no dangling secret, production isolation), `Progress.dfy` (the
  breaker's count, resting states, convergence), `RotationRuns.dfy` (what any number of rotations
  leaves), `Dangling.dfy` (exactly which configurations can dangle), `RolloutRuns.dfy` (which revision a Rollout
  policy records), `RolloutSafety.dfy` (when the secrets a Rollout mounts are safe), `CanaryRuns.dfy`
  (whether the probed pods are the promoted pods), `EditedRuns.dfy` (the same while others edit the
  workload), `ProbeVerdicts.dfy` (which answer decides a pass, and what is counted), `JobProbes.dfy` (whose Job a pass
  stands on), `CanaryLife.dfy` (isolation before probing, and cleaning up), `StatusRuns.dfy` (what the stored
  conditions tell) and `Namespace.dfy` (several policies at once).
- **Beside it.** `Naming.dfy`, `Policy.dfy`, `Redaction.dfy`, `Leaks.dfy` (exactly which tokens survive
  it) and `Escaping.dfy` (their escaped forms), `Revision.dfy` and `RevisionLaws.dfy` (the hashed bytes and the
  JSON merge), `Settlement.dfy` and `SettlementRuns.dfy` (from a locked message to the reconcile queue) and
  `IgnoreDifferences.dfy` (the Argo CD entry and its conflict-retry loop).

A lost response, where the server did what the client took for an error, needs no case of its own:
it is the run in which that call succeeds and the next one fails. Reconciles of one policy are
serial, a policy's specification is fixed during a run, and reads see earlier writes. Nobody else
writes the workload during a run, except in `EditedRuns`, where anyone may replace the template between
two reconciles; the statements about a Rollout's generation and last patch rest on that too.

The history fields of `State` (`passed`, `patches`, `cyclePatched`, `jobWins`) and the `origin` of a Job
record what happened; nothing the operator does depends on them.

## What does not hold

Five things the repository promises or suggests are false of the code. Each has a lemma with the
run or input, and the exact condition under which the promise does hold.

- **Secrets are never collected while mounted.** The rewriting looks for the object name of the
  deprecated `vaultRef` (internal/workload/adapter.go:83), while secrets are named after the resolved
  source (internal/controller/dynamicsecretpolicy_controller.go:894). For every kind of workload but
  Rollout, a configuration is safe if and only if a variable is bound explicitly or the managed name
  followed by `-rev-` starts with that object name followed by `-rev-` (`Dangling.NeverDanglesIffSteady`).
  For Rollouts the same condition is exact over the runs that take no stale Healthy report, which is the
  next point (`RolloutSafety.RolloutNeverDanglesIffSteady`); the first such report of a fitting policy
  leaves a dangling reference exactly if production mounts a secret, neither current nor desired, that the
  collection deletes (`RolloutSafety.StaleReportDanglesIff`). A policy that only has `source` is safe
  only with an explicit variable, but for a few odd names (`Dangling.SourceOnlyPoliciesAreNot`).
- **A Rollout's revision is recorded after it was patched and became healthy.** A new cycle clears
  five conditions but not `RolloutProgressing`
  (internal/controller/dynamicsecretpolicy_controller.go:262-267), which outranks `RevisionPrepared`.
  `RolloutRuns.FinalizationIsPatchedIff` has the exact condition, and
  `RolloutRuns.EveryRolloutPolicyCanBeStale` a run for every Rollout policy.
- **Every probe of the list has to pass.** All Job probes of one policy share one Job name per
  revision, and a failed deletion of a finished Job is ignored. A pass means that each Job probe's own
  Job succeeded if and only if the Job probes share one template (`JobProbes.PassIsOwnIff`). Where
  deletions are effective a list with two Job probes can never pass; where they fail it passes on the
  first probe's Job alone (`JobProbes.ListCanPassIff`, `JobProbes.ListPasses`).
- **What was validated is what is promoted.** The canary matches variables by other rules than the
  promotion; creating the canary accepts a leftover one; a lost status write, of a trip or of a
  promotion, leaves the validation to be repeated after its canary was removed; and the promotion
  fetches the workload again (internal/controller/dynamicsecretpolicy_controller.go:885), which somebody
  may have edited since the canary was cloned from it. Over all runs, what is promoted was validated if
  and only if neither canary deletions nor status writes fail, nobody else edits the workload, and the
  variable is bound explicitly (`EditedRuns.AlwaysValidatedIff`); under edits, if and only if they left
  alone all but what the promotion overwrites (`EditedRuns.BoundIsValidatedIffLeftAlone`). Lost status writes
  are also all that lets probes run without a canary behind its network policy (`CanaryLife.AlwaysFencedIff`).
- **No sensitive token of four or more characters survives sanitizing**
  (internal/probes/sanitize_test.go:53-58, which searches the whole returned error). A token is never
  shown, over all messages and all other tokens, if and only if it is not in the fixed prefix, no end of
  the prefix begins it whose rest could begin a sanitized text, and, behind the prefix, it clashes with
  the marker wherever the two overlap or a pattern takes some of it away (`Leaks.ErrorIsSafeIff`, on
  `Leaks.SanitizerIsSafeIff` for the part behind the prefix). `REDA` is shown for the marker, `base` for the
  prefix, and `d: x` for both sides of the joint.

Where the documentation differs from the code, the code is modelled. In particular the comment at
internal/integration/argocd.go:49-53 and docs/architecture/gitops-argo-cd.md:265 describe an expression
that selects names ending in `-rev-` and a hash; the code writes one that selects names starting with the
Application's name (internal/integration/argocd.go:180-183), and `IgnoreDifferences.RevisionIsIgnoredIff`
says when that covers the operator's own changes.

## Model

| member | source | states |
|---|---|---|
| Safety.NoDanglingReference | internal/controller/dynamicsecretpolicy_controller.go:885-926 | In every run of a Deployment, StatefulSet or DaemonSet policy whose names fit, wherever calls fail between patch, collection and status write, the secrets of the current and desired revision and of every own reference in the production template exist |
| Dangling.NeverDanglesIffSteady | internal/workload/adapter.go:83-84 | A configuration never dangles, over all workload kinds but Rollout, all probe lists, initial states and runs, if and only if a variable is bound explicitly or the revision secrets' prefix fits what the rewriting looks for |
| Dangling.IllFittingDangles | internal/workload/adapter.go:190-201 | For every ill-fitting configuration: an initial state and a run of four undisturbed rotations, each to a revision of its own, after which production imports a collected secret |
| Dangling.LegacyPoliciesNeverDangle | api/v1alpha1/dynamicsecretpolicy_types.go:370-421 | A policy in the deprecated form never dangles, over the same kinds, states and runs |
| Dangling.SourceOnlyPoliciesAreNot | api/v1alpha1/dynamicsecretpolicy_types.go:393-421 | A policy that names its secret in `source` alone fits exactly when it binds a variable, or when that name is empty, is `-rev`, or starts with `-rev-` |
| Safety.ProductionIsolation | internal/controller/dynamicsecretpolicy_controller.go:496-571 | In any run, every own revision production mounts passed the whole probe list at an earlier step of that run, and only a step that passes the list changes production |
| Safety.PassAcceptsEveryProbe | internal/controller/dynamicsecretpolicy_controller.go:618-691 | A pass of the list means that each single probe of it was accepted, a Job probe on the Job that bears the shared name; whose Job that is, `JobProbes.PassIsOwnIff` says |
| Safety.PhasesAreExclusive | internal/controller/dynamicsecretpolicy_controller.go:1064-1095 | In every reachable state with a desired revision exactly one of the three phase conditions is present and it is the phase the state machine reads; RolledBack, the fallback scan and the default branch are not reached |
| Safety.DesiredIsConstant | internal/controller/dynamicsecretpolicy_controller.go:206-222 | The desired revision changes only by a promotion that makes it current, or by a fresh upstream revision found at rest or with the breaker open; the current one changes only by a promotion |
| Safety.StatusMoves | internal/controller/dynamicsecretpolicy_controller.go:225-584 | Every way one reconcile can change the stored status of a policy that does not target a Rollout |
| Safety.ClusterMoves | internal/controller/dynamicsecretpolicy_controller.go:541-553 | Only a promoting step touches the production template or removes a secret; every other step adds at most the secret of the upstream revision |
| Safety.RunKeepsNames | internal/controller/dynamicsecretpolicy_controller.go:911-926 | For every kind of workload and every run, the secrets of the current and the desired revision stay |
| Progress.BreakerAccounting | internal/controller/dynamicsecretpolicy_controller.go:496-534 | The failure count is the number of failed validations since the desired revision was last set when status writes succeed, and never more; it never passes the threshold, is zero before validation, and the breaker is open exactly at the threshold |
| Progress.RestingRun | internal/controller/dynamicsecretpolicy_controller.go:226-256 | While upstream shows nothing new, any number of reconciles of a halted or in-sync policy changes nothing at all |
| Progress.OnlyFreshUpstreamLeaves | internal/controller/dynamicsecretpolicy_controller.go:211-222 | A reachable halted or in-sync policy changes its status if and only if a fresh revision is found and the write succeeds, and then to that revision with no failures |
| Progress.Convergence | internal/controller/dynamicsecretpolicy_controller.go:248-571 | With upstream frozen, calls succeeding and synchronous probes giving verdicts, a policy with drift is promoted or halted within three reconciles and one per attempt |
| Progress.StepProgresses | internal/controller/dynamicsecretpolicy_controller.go:386-414 | Each such reconcile promotes, halts, or lowers the measure of phases and attempts left by one |
| Progress.OneRotation | internal/controller/dynamicsecretpolicy_controller.go:248-571 | What four undisturbed reconciles without probes leave: status, template, secrets and canary |
| RolloutRuns.FinalizationIsPatchedIff | internal/controller/dynamicsecretpolicy_controller.go:416-457 | In any run the current revision of a Rollout policy changes only on a Healthy report at the observed generation; production was patched to it in that cycle if and only if RevisionPrepared is gone |
| RolloutRuns.UntrippedFinalizationIsPatched | internal/controller/dynamicsecretpolicy_controller.go:416-457 | If the breaker never trips, only a revision that production was last patched to becomes current |
| RolloutRuns.StaleConditionRecordsUnpatched | internal/controller/dynamicsecretpolicy_controller.go:262-280 | From every initial state whose template the first patch touches: a run that records a revision production was never patched to, and collects the secret production mounts |
| RolloutRuns.EveryRolloutPolicyCanBeStale | internal/controller/dynamicsecretpolicy_controller.go:262-280 | Every Rollout policy, whatever it binds and whatever its threshold, has such an initial state and run |
| RolloutSafety.NoDanglingRollout | internal/controller/dynamicsecretpolicy_controller.go:416-457 | In every run of a fitting Rollout policy in which no Healthy report is taken for a revision that was only prepared, wherever calls fail, the secret of every own reference in production exists |
| RolloutSafety.NoDanglingUntripped | internal/controller/dynamicsecretpolicy_controller.go:416-494 | In particular in every run in which the breaker never trips |
| RolloutSafety.StaleReportDanglesIff | internal/controller/dynamicsecretpolicy_controller.go:909-926 | The first stale report of such a policy's run leaves a dangling reference if and only if production mounts an own revision, neither current nor desired, whose secret the collection manages to delete |
| RolloutSafety.IllFittingRolloutDangles | internal/workload/adapter.go:190-201 | For every ill-fitting Rollout policy: an initial state and a run without a stale report after which production imports a secret that no longer exists |
| RolloutSafety.RolloutNeverDanglesIffSteady | internal/workload/adapter.go:83-84 | The Rollouts of a configuration never dangle in runs without a stale report if and only if the configuration fits |
| RolloutSafety.RolloutBreakerAccounting | internal/controller/dynamicsecretpolicy_controller.go:459-494 | For a Rollout policy the failure count is the number of Degraded reports taken since the desired revision was last set when status writes succeed, and never more; it never passes the threshold, and the breaker is open exactly at the threshold |
| CanaryLife.ValidationIsFenced | internal/controller/dynamicsecretpolicy_controller.go:345-398 | In any run whose status writes are accepted, whichever other calls fail, probes only run while a canary stands and its network policy is in place |
| CanaryLife.AlwaysFencedIff | internal/controller/dynamicsecretpolicy_controller.go:550-570 | Over all policies of a configuration and all runs, that holds if and only if no status write is ever lost |
| CanaryLife.StepSurroundings | internal/canary/cleanup.go:36-104 | For every kind of workload and every status: which steps clean up, that cleaning up stops at the first deletion that fails, and that every other step keeps canary, isolation and Jobs but for what it provisions and probes |
| CanaryLife.SettledIsClean | internal/controller/dynamicsecretpolicy_controller.go:514-553 | A promotion, and a trip, whose deletions succeed leave no canary, no isolation and no Job with the policy's label |
| CanaryLife.OthersJobsStay | internal/canary/cleanup.go:83-101 | In any run, a Job of another policy stays as it is, unless it bears a name the policy derives for a revision |
| StatusRuns.FirstShownIsThePhase | internal/controller/dynamicsecretpolicy_controller.go:1064-1095 | For any status: the phase is the first of the five conditions that is there, RolledBack only if true; else the first true condition; else the machine starts over |
| StatusRuns.ConditionsTell | internal/controller/dynamicsecretpolicy_controller.go:258-571 | In every reachable state: Promoting is true exactly when no rotation runs and a revision is in use, and absent otherwise; Validating is false exactly after a failure that did not open the breaker at once; the provisioning conditions are true; and a Rollout's condition is false exactly after a degradation |
| StatusRuns.BreakerOpensAt | internal/controller/dynamicsecretpolicy_controller.go:181-185 | In every reachable state, for every kind, the breaker is open exactly at the policy's threshold, or at three if it sets none above zero |
| StatusRuns.UnsupportedKindIsLeftAlone | internal/workload/adapter.go:59-71 | A workload of an unsupported kind is never touched and gets no canary, in any run |
| StatusRuns.KindDecides | internal/workload/adapter.go:59-71 | Which kinds have an adapter, the empty one among them, and which is waited for as a Rollout |
| ProbeVerdicts.OutcomeIff | internal/controller/dynamicsecretpolicy_controller.go:591-692 | A pass succeeds, waits or is refused exactly by the answer of the first probe that does not accept: refused if and only if the secret cannot be read or that answer is an error, a rejection, a missing template or a failed or expired Job; waiting if and only if the canary is not ready, the Job runs or was just created |
| ProbeVerdicts.JobsAfterProbes | internal/controller/dynamicsecretpolicy_controller.go:624-657 | What the pass leaves of the Jobs: only the one of the shared name is made or deleted, a failed one so that the next pass makes a new one |
| ProbeVerdicts.SlowCanaryIsNoFailure | internal/controller/dynamicsecretpolicy_controller.go:668-674 | Any number of reconciles that find the canary not ready change nothing, and the breaker stays closed |
| ProbeVerdicts.AwaitedChangesNothing | internal/controller/dynamicsecretpolicy_controller.go:642-674 | Whatever is awaited, the reconcile records nothing and changes no more than Jobs |
| ProbeVerdicts.FailureIsCounted | internal/controller/dynamicsecretpolicy_controller.go:499-534 | The count rises, by one, exactly on a failing answer; production, secrets and the rotation stay, and the breaker opens at the threshold |
| ProbeVerdicts.PromotesIff | internal/controller/dynamicsecretpolicy_controller.go:536-571 | Production is patched exactly if every probe accepts, the kind has an adapter and fetch and patch succeed |
| ProbeVerdicts.VerdictIs | internal/probes/job.go:157-177 | A Job has succeeded or failed by the first true condition that ends it; an open one has timed out or runs, by its deadline |
| RotationRuns.ProductionIsRotatedOnce | internal/workload/adapter.go:77-208 | In any run of a fitting policy, for any kind of workload and whichever calls fail, production is the original template or one rotation of it to the last patched revision, if no import is tied to the revision in use |
| RotationRuns.AtMostTwoRemain | internal/controller/dynamicsecretpolicy_controller.go:909-926 | After a promotion in any run whose list and deletes succeed, the secrets with the policy's labels are at most those of the revision before and of the new one, and both exist |
| EditedRuns.AlwaysValidatedIff | internal/controller/dynamicsecretpolicy_controller.go:303-355 | Over all policies of a configuration and all their runs, with others editing the workload between reconciles where edits are allowed, every promotion follows a pass on a standing canary with exactly the promoted pod spec, if and only if no canary deletion and no status write ever fails, nobody edits, and the variable is bound explicitly |
| EditedRuns.ValidatedUnderEditsIff | internal/controller/dynamicsecretpolicy_controller.go:885-894 | In a run with edits and without failed canary deletions, a canary that stands at a promotion has the promoted pod spec if and only if the canary's rewriting of the template it was cloned from and the promotion's rewriting of the template as it is now agree; with status writes accepted one always stands |
| EditedRuns.BoundIsValidatedIffLeftAlone | internal/controller/dynamicsecretpolicy_controller.go:885-894 | With the variable bound and those calls succeeding, what is promoted was validated if and only if the edits since the canary was cloned changed nothing but what the promotion overwrites |
| EditedRuns.IsolationUnderEdits | internal/controller/dynamicsecretpolicy_controller.go:496-571 | Whatever others edit, every own revision production mounts was brought by such an edit or passed the whole probe list |
| CanaryRuns.ValidatedIsPromoted | internal/canary/deployment.go:107-179 | In a run without failed canary deletions, a canary that stands at a promotion is the promoted revision's own, with the promoted pod spec if and only if the matching rules agree or the variable is bound explicitly; with status writes accepted one always stands |
| CanaryRuns.LostTripPromotesWithoutCanary | internal/controller/dynamicsecretpolicy_controller.go:514-522 | The breaker trips, the write that records it is lost, the canary is removed all the same: the next pass promotes without one |
| CanaryRuns.RepeatedPromotionHasNoCanary | internal/controller/dynamicsecretpolicy_controller.go:550-570 | A promotion whose status write is lost is repeated without a canary |
| CanaryRuns.FailedCleanupLeavesStaleCanary | internal/controller/dynamicsecretpolicy_controller.go:351-355 | After one failed deletion the next revision is promoted on a canary of the previous one |
| JobProbes.PassIsOwnIff | internal/controller/dynamicsecretpolicy_controller.go:618-666 | Over all runs, a pass means that each Job probe's own Job was built for the revision and seen to succeed, if and only if the Job probes share one template, or one of them has none and nothing passes |
| JobProbes.ListCanPassIff | internal/controller/dynamicsecretpolicy_controller.go:618-666 | Some run of a new policy passes the list if and only if every Job probe has its template and, where deletes are effective, there is at most one |
| JobProbes.ListPasses | internal/controller/dynamicsecretpolicy_controller.go:624-657 | From every initial state a run that passes and promotes such a list, on the first Job probe's Job alone, the only one ever built |
| JobProbes.TwoJobProbesNeverPromote | internal/controller/dynamicsecretpolicy_controller.go:624-638 | With two Job probes no run in which deletes of Jobs are effective ever changes production or the current revision |
| JobProbes.PassMeansJobSucceeded | internal/controller/dynamicsecretpolicy_controller.go:618-657 | In any run a list whose Job probes share one template passes only if, for each of them, a Job built from it for the desired revision was there and was seen to succeed in that pass |
| Namespace.CollectionIsIsolated | internal/controller/dynamicsecretpolicy_controller.go:911-926 | For any interleaving of policies with pairwise distinct target-object strings, the secrets each names as current or desired exist at every point |
| Namespace.NoDanglingInterleaved | internal/controller/dynamicsecretpolicy_controller.go:911-926 | In any interleaving with policies of any kind and pairwise distinct target-object strings, a fitting policy of a Deployment, StatefulSet or DaemonSet leaves no dangling reference in its production template |
| Namespace.NeverLosesIffDistinct | internal/controller/dynamicsecretpolicy_controller.go:911-926 | Policies of a shape never lose a named secret, over all kinds, probes, initial states and interleavings, if and only if their target-object strings are pairwise distinct |
| Namespace.CollidingPoliciesLoseSecrets | internal/controller/dynamicsecretpolicy_controller.go:1030-1035 | Of two policies with the same string, without probes and starting from no secrets, one's rotations delete the other's current secret |
| Namespace.SecretMoves | internal/controller/dynamicsecretpolicy_controller.go:196-571 | For every kind of workload, a step creates one secret, or collects, or leaves the secrets alone |
| Reconciler.Cluster.Reconcile | internal/controller/dynamicsecretpolicy_controller.go:147-586 | One reconcile, call by call with early returns, takes the cluster to exactly the state `Rotation.Step` gives |
| Reconciler.Cluster.EvaluateState | internal/controller/dynamicsecretpolicy_controller.go:1064-1095 | The order in which the conditions are looked up, and the fallback scan |
| Reconciler.Cluster.ContinueRotation | internal/controller/dynamicsecretpolicy_controller.go:248-585 | The phases of a running rotation |
| Reconciler.Cluster.StartCycle | internal/controller/dynamicsecretpolicy_controller.go:258-280 | The reset of the counter and of five conditions, and the write that begins a cycle |
| Reconciler.Cluster.ProvisionTarget | internal/controller/dynamicsecretpolicy_controller.go:292-398 | Canary and network policy for a workload, the direct patch for a Rollout |
| Reconciler.Cluster.PollRollout | internal/controller/dynamicsecretpolicy_controller.go:416-494 | Healthy, Degraded and unsettled reports, and stale generations |
| Reconciler.Cluster.ValidateCanary | internal/controller/dynamicsecretpolicy_controller.go:496-571 | Failure counting, the trip, and patch, collection, cleanup and record in this order |
| Reconciler.Cluster.HaltReconciliation | internal/controller/dynamicsecretpolicy_controller.go:226-246 | The open breaker is recorded once and cleans up once |
| Reconciler.Cluster.ReconcileValidationProbes | internal/controller/dynamicsecretpolicy_controller.go:591-692 | The loop over the probes ends as the recursive reading of the list does, in outcome, Jobs and seen successes |
| Reconciler.Cluster.RunProbe | internal/controller/dynamicsecretpolicy_controller.go:618-688 | One probe of that loop |
| Reconciler.Cluster.PromoteTargetWorkload | internal/controller/dynamicsecretpolicy_controller.go:867-907 | Nothing is collected unless the patch went through |
| Reconciler.Cluster.PatchWorkload | internal/workload/deployment_adapter.go:65-72 | The fetched template is rewritten in a copy and stored only if the patch is accepted |
| Reconciler.Cluster.GcOldSecretRevisions | internal/controller/dynamicsecretpolicy_controller.go:911-926 | Deletes by label exactly the own revisions that are neither current nor desired, but for failing deletes |
| Reconciler.Cluster.MaterializeSecretRevision | internal/controller/dynamicsecretpolicy_controller.go:932-1047 | The secret of the fetched revision exists afterwards, and one that was there is not overwritten |
| Reconciler.Cluster.UpdateStatus | internal/controller/dynamicsecretpolicy_controller.go:1050-1061 | The working copy is stored with its new condition, or nothing is |
| Reconciler.Cluster.CleanupCanaryResources | internal/canary/cleanup.go:37-104 | Canary, then network policy, then the policy's Jobs, stopping at the first refused deletion of the first two |
| Conditions.FindFirstTrue | internal/controller/dynamicsecretpolicy_controller.go:1087-1091 | The fallback scan finds the first true condition, and none only if there is none |
| Adoption.RewritingAdopts | internal/workload/adapter.go:102-207 | Every place of a pod spec, under both rules: a bound variable or volume, or with nothing bound one whose name, key or volume name is in the list of adopted names, comes to the new secret; every other place of every container stays |
| Adoption.AdoptedPlacesFollow | internal/workload/adapter.go:77-208 | In any run of a fitting policy, for any kind and whichever calls fail, once production was patched every adopted place of the original template is on the last patched revision's secret, by its full name, and nothing else has changed |
| Adoption.ObjectVariableFollows | internal/workload/adapter.go:177-188 | In particular a variable first written with the object's own name |
| Adoption.CanaryAdopts | internal/canary/deployment.go:36-197 | In a run without failed canary deletions a standing canary is production's pod spec with the places the canary adopts on the desired revision's secret |
| Adoption.CanaryIsFoundIff | internal/canary/deployment.go:51-61 | In any run a standing canary is found by exactly the selectors that ask for nothing but the two canary labels, and by no Service that asks for anything else, whatever labels production has |
| Adoption.ProductionStaysServed | internal/workload/adapter.go:87-90 | In any run every selector that found production still does; the revision annotation tells the last patch, and no other changes |
| Adoption.PolicyBinds | internal/workload/adapter.go:92-100 | Which field of the policy binds what, and that no target reference binds nothing |
| Adoption.PatchesIff | internal/controller/dynamicsecretpolicy_controller.go:312-327 | For every kind: production is patched by a promotion, or as a prepared Rollout whose fetch and patch succeed, by no other step, and each time to the desired revision |
| Adoption.GenerationCountsChanges | internal/controller/dynamicsecretpolicy_controller.go:436-446 | For every kind, exactly the steps that change the template make a new generation, by which a report about an older one is told |
| Adoption.JobProbesTheRevision | internal/probes/job.go:89-142 | Every container and init container of the Job, whatever its name, is pointed at the revision's secret by the promotion's rules and told its name; label, annotation, other variables and retries |
| TemplateLaws.CanaryIsPromotion | internal/canary/deployment.go:77-179 | Canary and promoted pod spec are equal if and only if the variable is bound explicitly or both matching rules agree on every reference of a selected container that does not name the new secret already |
| TemplateLaws.RotationAbsorbs | internal/workload/adapter.go:77-208 | For a fitting policy two rotations leave what the second alone leaves if and only if every envFrom reference the first revision in use made matching still matches at the second |
| TemplateLaws.RotationsForgetIff | internal/workload/adapter.go:77-208 | For a fitting policy every sequence of rotations leaves what its last one makes of the original, if and only if no selected container has an import that only the revision in use makes matching |
| TemplateLaws.ImplicitPromotionOnlyRepoints | internal/workload/adapter.go:102-203 | Under implicit matching nothing is added, dropped or moved; a reference changes only if it is matched and its container selected, a volume only if it is bound or matched, and no label, other annotation, key or other source changes |
| TemplateLaws.ExplicitBindingTakesEffect | internal/workload/adapter.go:144-174 | The variable a container sees is the bound one, for any list and any number of entries of that name, and every other variable is as before |
| TemplateLaws.PromotionReplacesOwnRefs | internal/workload/adapter.go:102-207 | A fitting promotion leaves no reference to another own revision, and what it writes is found again by the next |
| TemplateLaws.PromotedRefs | internal/workload/adapter.go:102-207 | A promotion brings in no reference but the new secret |
| PodTemplate.PodTemplate.Mutate | internal/workload/adapter.go:77-208 | The in-place rewriting for a promotion equals the element-wise function on the whole template |
| PodTemplate.PodTemplate.MutateForCanary | internal/canary/deployment.go:58-179 | The same for the second copy of the loops, with labels overwritten |
| PodTemplate.PodTemplate.MutateVolumes | internal/workload/adapter.go:102-133 | Explicit and implicit volume targeting |
| PodTemplate.MutateContainers | internal/workload/adapter.go:136-204 | The loop over containers with the container filter |
| PodTemplate.BindEnv | internal/workload/adapter.go:144-174 | Every variable of the bound name is overwritten, or one is appended |
| PodTemplate.MatchEnv | internal/workload/adapter.go:177-188 | Exactly the matching variables are repointed |
| PodTemplate.MatchEnvFroms | internal/workload/adapter.go:190-201 | Exactly the matching imports are repointed |
| PodTemplate.BuildCanaryFromTemplate | internal/canary/deployment.go:36-197 | The canary is made on a copy, from the template as it is |
| ProbeJob.BuildProbeJob | internal/probes/job.go:93-142 | Name, label, rewritten and injected template without the container filter, and backoff limit of the Job |
| ProbeJob.SetOrAppendEnv | internal/probes/job.go:199-218 | The nested loops set the first entry of the name in each container, or append one |
| ProbeJob.SetOrAppend | internal/probes/job.go:201-215 | The loop over one container's list |
| ProbeJob.InjectionTakesEffect | internal/probes/job.go:189-218 | A container sees the injected value if and only if the list holds the name at most once or holds the injected entry last anyway, and sees every other variable as before |
| ProbeJob.EvaluateJobStatus | internal/probes/job.go:146-178 | The scan of the status gives the verdict that its first terminal condition decides |
| ProbeJob.FirstTerminalDecides | internal/probes/job.go:157-177 | Later conditions and the deadline do not matter once a terminal condition is there |
| Naming.SecretNameInjective | internal/controller/dynamicsecretpolicy_controller.go:974-975 | Secret names with revisions of one length are equal if and only if the target-object strings and the revisions are |
| Naming.DeriveProbeJobName | internal/probes/job.go:63-87 | The step-by-step name equals the function without the final cut, so that cut never fires |
| Naming.SanitizeNameLoop | internal/probes/job.go:283-293 | The builder loop computes the sanitized name |
| Naming.JobNameIsLabel | internal/probes/job.go:61-87 | For all policy and secret strings the Job name is a label under section 2.1 of RFC 1123 |
| Naming.JobNameIs | internal/probes/job.go:63-87 | For clean names: the prefix, as much of the policy's name as there is room for, and the end of the secret's name |
| Naming.JobNameSeparatesPolicies | internal/probes/job.go:63-87 | Policies with clean names of at most 28 characters never share a Job name for one secret |
| Naming.SanitizedIs | internal/probes/job.go:280-293 | For any text: the lower-cased letters and digits with hyphens for all else, less the hyphens at both ends |
| Naming.JobNameKeepsRevision | internal/probes/job.go:67-73 | A name that ends in a revision gives a Job name that ends in it |
| Naming.JobNameSeparatesRevisions | internal/probes/job.go:67-73 | For one policy, different revisions get different Job names |
| Policy.ManagedName | api/v1alpha1/dynamicsecretpolicy_types.go:370-421 | For every backend the name its block gives, and the fallback when that block is missing or the type is unknown |
| Policy.LegacyObjectName | api/v1alpha1/dynamicsecretpolicy_types.go:370-421 | A deprecated reference resolves to the object it names |
| Redaction.SanitizeDBError | internal/probes/sanitize.go:28-58 | The loop over tokens and the two patterns compute the redacted text behind the fixed prefix; no error stays no error |
| Leaks.ErrorIsSafeIff | internal/probes/sanitize_test.go:53-58 | A token occurs in no returned error, over all messages and all other tokens, if and only if it is not in the fixed prefix, does not lie across its end, and is safe in the part behind it |
| Leaks.PrefixShowsSafeTokens | internal/probes/sanitize.go:57 | Tokens that are safe behind the prefix and shown all the same, one in the prefix and one across its end |
| Leaks.SanitizerIsSafeIff | internal/probes/sanitize.go:33-55 | A token occurs in no sanitized text, which is the part behind the fixed prefix, over all messages and all other tokens, if and only if it clashes with the marker wherever they overlap or a pattern takes some of it away |
| Leaks.UnmatchedIsSafeIff | internal/probes/sanitize.go:33-55 | For a token in which neither pattern matches, in the part behind the prefix: if and only if it clashes with the marker wherever they overlap |
| Escaping.EscapedFormIsNeverShown | internal/probes/sanitize.go:40-50 | The query-escaped form of a token, where it differs from the token, occurs in no returned error, for any message and token list and without any condition on the token |
| Escaping.EscapeRoundTrips | internal/probes/sanitize.go:46-50 | Every text can be read back from its escaped form, percent forms and UTF-8 |
| Escaping.EscapedShape | internal/probes/sanitize.go:46-50 | The escaped form has plain characters, plus signs and percent forms only, and differs from the text exactly if that is not plain |
| Escaping.ValuesAreRedacted | internal/probes/sanitize.go:26-29 | In every sanitized text what follows a password key up to its end, in any case, and the password of every address is the marker |
| Escaping.KeyValuesAreReplaced | internal/probes/sanitize.go:26-54 | The first pattern puts the marker in place of the first value that a password key gives, goes on behind it, and leaves a text without such values as it is |
| Escaping.AddressValuesAreReplaced | internal/probes/sanitize.go:28-55 | The second does so for the passwords of addresses, and keeps the colon and the at sign |
| Escaping.TokensAreReplaced | internal/probes/sanitize.go:44-50 | A token gives way to the marker where it first occurs, and what follows is searched on |
| Escaping.HarmlessIsKept | internal/probes/sanitize.go:33-58 | A message with no such value and no token in it, plain or escaped, is returned as it is behind the prefix |
| Escaping.TrimmedIs | internal/probes/sanitize.go:43-45 | A token is what is left between the white space around it |
| Leaks.SanitizedIsDone | internal/probes/sanitize.go:53-55 | In every sanitized text both patterns match nothing but the marker: neither pass undoes the other |
| Leaks.TokenPassIsSafeIff | internal/probes/sanitize.go:36-51 | The replacement of tokens is safe for exactly the tokens that clash with the marker |
| Redaction.TokensAreRedacted | internal/probes/sanitize.go:33-58 | No later token and neither pattern brings a removed token back |
| Redaction.ForeignIsClear | internal/probes/sanitize.go:36-51 | A token that shares no character with the marker is such a token |
| Redaction.TokensInsideTheMarkerLeak | internal/probes/sanitize_test.go:53-58 | Every token that is part of the marker's word, however long, survives a message made of it alone |
| Redaction.RedactLeavesUnmatched | internal/probes/sanitize.go:36-55 | Text in which nothing matches is left alone |
| Revision.HashInput | internal/controller/dynamicsecretpolicy_controller.go:954-973 | In whatever order the map is walked, the hashed bytes are those of the payload and the version |
| RevisionLaws.ChangedValueShows | internal/controller/dynamicsecretpolicy_controller.go:954-973 | A change of one value, of whatever length, always changes the hashed bytes |
| RevisionLaws.VersionShows | internal/controller/dynamicsecretpolicy_controller.go:971-973 | The version ends the bytes, so two versions of one payload never share them |
| RevisionLaws.SmallPayloads | internal/controller/dynamicsecretpolicy_controller.go:955-970 | A value alone is hashed without its key; of two, each key stands before its value, the smaller first |
| RevisionLaws.GreatestKeyComesLast | internal/controller/dynamicsecretpolicy_controller.go:961-970 | A key behind all others adds itself and its value at the end |
| RevisionLaws.MergedFieldIs | internal/source/provider.go:165-180 | In whatever order, the merged payload has for a field what the last key that gives it gives, a value that does not parse being kept under its key |
| RevisionLaws.UngivenFieldIsAbsent | internal/source/provider.go:165-180 | And no field that no key gives |
| RevisionLaws.BeforeIsLexicographic | internal/controller/dynamicsecretpolicy_controller.go:965 | Keys are ordered by their first differing byte, a prefix before what it begins |
| Revision.MergeIsDeterministicIff | internal/source/provider.go:165-176 | The merged payload is the same for every iteration order if and only if no two keys contribute different values for one field |
| Revision.FetchParsed | internal/source/provider.go:165-180 | The nested merge loop computes the overlay of the contributions in its iteration order |
| Revision.Overlay | internal/source/provider.go:172-174 | The inner loop lays the parsed fields over what is there, in any order |
| Revision.HashParsedSecret | internal/controller/dynamicsecretpolicy_controller.go:949-973 | From source secret to hashed bytes no iteration order shows through when contributions agree |
| Revision.StreamsCollide | internal/controller/dynamicsecretpolicy_controller.go:966-973 | Different payloads can give the same hashed bytes |
| Revision.AscendingIsUnique | internal/controller/dynamicsecretpolicy_controller.go:961-965 | A set of keys has one ascending order |
| Settlement.Listener.Start | internal/azure/servicebus.go:153-255 | The receive loop does to the channel and to each message what settling the deliveries one after another does; without a handler it does nothing |
| Settlement.Listener.ProcessBatch | internal/azure/servicebus.go:180-253 | The loop over one batch |
| Settlement.Listener.Handle | cmd/main.go:289-346 | The event handler: unparsable events, failed lists, full channel and failed acknowledgement are errors |
| Settlement.Listener.EnqueueMatching | cmd/main.go:311-330 | The loop over the listed policies sends the matching ones in order and stops at the first send that fails |
| Settlement.Listener.Send | cmd/main.go:315-329 | A send goes through only below the channel's capacity |
| SettlementRuns.SettledExactly | cmd/main.go:289-346 | In any run a delivery is completed if and only if its event can be read, the policies can be listed, every send finds room in the channel as it then is and the acknowledgement succeeds; in every other case, and only then, its lock is given up |
| SettlementRuns.OnlyTheConcernedAreEnqueued | cmd/main.go:311-315 | A policy is woken for a delivery only if it is listed and the event names no object, its object or itself |
| SettlementRuns.MatchingIsTheConcerned | cmd/main.go:311-315 | Of the listed policies exactly those are matched, in the order of the list |
| SettlementRuns.ChannelIsAQueue | cmd/main.go:262-266 | Over any run the channel holds what it held and what was enqueued, in order, less what was taken from its front |
| SettlementRuns.DeliveriesInOrder | internal/azure/servicebus.go:180-217 | Each received batch adds its messages in order, and a failed receive adds none |
| Settlement.EachDeliverySettlesOnce | internal/azure/servicebus.go:217-250 | Over any sequence of batches each handled delivery ends in exactly one successful completion or abandon attempt |
| Settlement.CompletionMeansEnqueued | cmd/main.go:311-343 | A completed delivery had every matching listed policy enqueued before the completion |
| Settlement.ChannelStaysWithinCapacity | cmd/main.go:262-266 | The channel never exceeds its capacity |
| IgnoreDifferences.Application.EnsureIgnoreDifferences | internal/integration/argocd.go:178-217 | The in-place update computes the specified entry list and returns true exactly if something required was missing |
| IgnoreDifferences.Application.CompleteItem | internal/integration/argocd.go:188-207 | What one entry lacks is appended to it |
| IgnoreDifferences.EnsuredIsEnough | internal/integration/argocd.go:176-217 | The update changes the Application if and only if something required is missing, completes the first matching entry, keeps every entry, pointer and expression in order, and a second update is idle |
| IgnoreDifferences.EnsuredAtFirstMatch | internal/integration/argocd.go:185-215 | Only the first matching entry changes; without one, one is appended |
| IgnoreDifferences.CompletedIsComplete | internal/integration/argocd.go:194-206 | Exactly the missing strings are added, once each |
| IgnoreDifferences.OnlyTheEntryChanges | internal/integration/argocd.go:185-215 | The entry for a kind and group, one without a group counting for apps alone, is the first such and the only one that changes; without one, the entry that is appended is given in full |
| IgnoreDifferences.RevisionIsIgnoredIff | internal/integration/argocd.go:180-183 | Read as the texts they are, the expressions of the operator's entry cover its own secret names if and only if their common prefix starts with the Application's name and a hyphen; a completed entry of the user's covers them at least then |
| IgnoreDifferences.Store.ReconcileIgnoreDifferences | internal/integration/argocd.go:93-120 | For the group that goes with the kind, the conflict-retry loop ends as its recursive reading does, and only a lasting conflict or a refused write is an error |
| IgnoreDifferences.Store.TryUpdate | internal/integration/argocd.go:93-102 | One attempt: fetch, update in a copy, write at the resource version that was read |
| IgnoreDifferences.NoEditIsLost | internal/integration/argocd.go:93-102 | Every concurrent user edit is stored in order, and the operator writes at most once, last, the update of the version just before |
| IgnoreDifferences.SuccessLeavesItComplete | internal/integration/argocd.go:93-120 | A successful loop leaves the Application complete with the last user edit kept |
| IgnoreDifferences.LoopEndsAs | internal/integration/argocd.go:93-120 | The loop ends with a conflict exactly if each of five attempts loses the race, and else as the first attempt that does not lose says |
| IgnoreDifferences.GivesUpIff | internal/integration/argocd.go:93-102 | The loop gives up on a conflict if and only if each attempt lost to an edit made between its read and its write |

## Left out

- Probe executors, log retrieval and the redirection of a probe to the canary's pod: network calls; a network probe gets an arbitrary answer, which may be that the canary is not ready.
- The two network policy builders: one flag says whether the canary is isolated, and the deletion of the Cilium variant, whose errors are ignored, has no effect in the model.
- SHA-256: upstream shows an arbitrary revision of twelve hexadecimal characters, so no lemma relies on collision freedom.
- PEM splitting, JSON parsing and the other secret backends: parsing is an arbitrary partial function, and a fetch is an arbitrary revision or an error.
- Secret contents, types, immutability and owner references: secrets carry the three labels that collection reads.
- Wall clocks: a deadline is an arbitrary flag, and delays between reconciles are not modelled.
- Informer caches, asynchronous deletion and parallel reconciles of one policy: reads see writes, and the reconciles of one policy are serial.
- Templates, Jobs and canaries shared by several policies: `Namespace` shares only the secrets.
- Changes of a policy's specification during a run, and the width of the failure counter, which stays below the threshold.
- Edits of the workload while a reconcile is in progress: in `EditedRuns` they come between reconciles; everywhere else, for Rollouts in particular, the operator is the workload's only writer.
- Condition reasons and messages, requeue delays, telemetry, and the callback after materialization, whose result is ignored.
- The lookup of an Application by tracking annotation, labels and namespaces: the loop knows one Application, which an attempt finds or does not.
- Restoring an older revision and routing to a dead-letter queue: documented, and not in the code.
- Endpoint, address range and DNS parsing, command-line flags, Helm charts and generated code: they would add only easy members or are library calls.
- Safety.PassAcceptsEveryProbe: does not say which probe's template the accepted Job was built from, because the code does not look; `JobProbes.PassIsOwnIff` has the exact condition.
- Namespace.CollidingPoliciesLoseSecrets: one run for policies without probes, as the witness behind `Namespace.NeverLosesIffDistinct`, which ranges over all kinds and probes.
