/** Regions of a plan, and when the loop of a composite region stops. */
module LoopPolicies {
  import opened Ids
  import opened Messages

  /** What is known about a loop when an iteration of it ends, and whether cancellation is asked for before it. */
  datatype LoopSignal = LoopSignal(cancelled: bool, converged: bool, residual: Option<real>, elapsedMs: int)

  datatype LoopPolicy = LoopPolicy(kind: string, maxIterations: int, convergence: string, residualThreshold: Option<real>,
                                   budgetMs: int, partialSuccess: string)
  {
    function Max(): nat {
      if maxIterations > 0 then maxIterations else 1
    }

    predicate Solver() {
      kind == "solver_iteration"
    }

    predicate ConvergesAtOnce() {
      convergence == "single_pass" || convergence == "after_first_iteration" || convergence == "always"
    }

    function PartialSuccess(): string {
      if partialSuccess != "" then partialSuccess else if Solver() then "discard_outputs" else "commit_outputs"
    }

    predicate Converged(s: LoopSignal) {
      ConvergesAtOnce() || s.converged || (s.residual.Some? && residualThreshold.Some? && s.residual.value <= residualThreshold.value)
    }

    predicate OverBudget(s: LoopSignal) {
      budgetMs > 0 && s.elapsedMs >= budgetMs
    }
  }

  datatype RunRegion = RunRegion(id: Id, components: seq<Id>, isLoop: bool, policy: LoopPolicy)

  datatype LoopStop = Converging | BudgetOverrun | CancelledLoop | MaxIterations

  /** A loop runs its iterations until the first one after which it has converged or is over budget, or before
      which it is cancelled, or until they are used up. Signal k is that of the k-th iteration. */
  ghost predicate LoopEnded(policy: LoopPolicy, signals: nat -> LoopSignal, base: nat, n: nat, reason: LoopStop) {
    && 1 <= n <= policy.Max()
    && (forall k {:trigger WentOn(policy, signals, k)} :: base <= k < base + n - 1 ==> WentOn(policy, signals, k))
    && var last := signals(base + n - 1);
      match reason
      case Converging => policy.Converged(last)
      case BudgetOverrun => !policy.Converged(last) && policy.OverBudget(last)
      case CancelledLoop => n < policy.Max() && KeepsGoing(policy, last) && signals(base + n).cancelled
      case MaxIterations => n == policy.Max() && KeepsGoing(policy, last)
  }

  /** The signals alone settle when and why a loop ends. */
  lemma LoopEndUnique(policy: LoopPolicy, signals: nat -> LoopSignal, base: nat, n: nat, reason: LoopStop, n': nat, reason': LoopStop)
    requires LoopEnded(policy, signals, base, n, reason) && LoopEnded(policy, signals, base, n', reason')
    ensures n == n' && reason == reason'
  {
    assert n < n' ==> WentOn(policy, signals, base + n - 1);
    assert n' < n ==> WentOn(policy, signals, base + n' - 1);
  }

  ghost predicate WentOn(policy: LoopPolicy, signals: nat -> LoopSignal, k: nat) {
    KeepsGoing(policy, signals(k)) && !signals(k + 1).cancelled
  }

  predicate KeepsGoing(policy: LoopPolicy, s: LoopSignal) {
    !policy.Converged(s) && !policy.OverBudget(s)
  }

  /** After n iterations the loop has neither converged nor run over its budget. */
  ghost predicate StillGoing(policy: LoopPolicy, signals: nat -> LoopSignal, base: nat, n: nat) {
    && (forall k {:trigger WentOn(policy, signals, k)} :: base <= k < base + n - 1 ==> WentOn(policy, signals, k))
    && (n > 0 ==> KeepsGoing(policy, signals(base + n - 1)))
  }

  lemma NotYetGoing(policy: LoopPolicy, signals: nat -> LoopSignal, base: nat)
    ensures StillGoing(policy, signals, base, 0)
  {
  }

  lemma CancelEnds(policy: LoopPolicy, signals: nat -> LoopSignal, base: nat, n: nat)
    requires StillGoing(policy, signals, base, n) && 0 < n < policy.Max() && signals(base + n).cancelled
    ensures LoopEnded(policy, signals, base, n, CancelledLoop)
  {
  }

  lemma IterationEnds(policy: LoopPolicy, signals: nat -> LoopSignal, base: nat, n: nat)
    requires StillGoing(policy, signals, base, n) && n < policy.Max() && (n > 0 ==> !signals(base + n).cancelled)
    ensures var s := signals(base + n);
      if policy.Converged(s) then LoopEnded(policy, signals, base, n + 1, Converging)
      else if policy.OverBudget(s) then LoopEnded(policy, signals, base, n + 1, BudgetOverrun)
      else StillGoing(policy, signals, base, n + 1)
  {
    assert n > 0 ==> WentOn(policy, signals, base + n - 1);
  }

  lemma UsedUp(policy: LoopPolicy, signals: nat -> LoopSignal, base: nat, n: nat)
    requires StillGoing(policy, signals, base, n) && n == policy.Max()
    ensures LoopEnded(policy, signals, base, n, MaxIterations)
  {
  }

  /** Whether the outputs of a loop that stopped this way are let through. */
  predicate LetsThrough(policy: LoopPolicy, reason: LoopStop) {
    !policy.Solver() || reason == Converging || policy.PartialSuccess() == "commit_outputs"
  }

  predicate FailsRun(policy: LoopPolicy, reason: LoopStop) {
    policy.Solver() && reason != Converging && policy.PartialSuccess() == "fail_run"
  }

  /** What becomes of a loop's outputs, by its kind, its partial-success policy and how it stopped: a loop that does not
      solve, or that converged, lets them through; a solver that did not fails the run, lets them through or, as it does
      by default, discards them. */
  lemma LoopOutcomes(policy: LoopPolicy, reason: LoopStop)
    ensures policy.kind != "solver_iteration" || reason == Converging ==> LetsThrough(policy, reason) && !FailsRun(policy, reason)
    ensures policy.kind == "solver_iteration" && reason != Converging ==>
      && (LetsThrough(policy, reason) <==> policy.partialSuccess == "commit_outputs")
      && (FailsRun(policy, reason) <==> policy.partialSuccess == "fail_run")
  {
  }

  /** When a loop has converged, is over its budget, or has used up its iterations. */
  lemma LoopTests(policy: LoopPolicy, s: LoopSignal)
    ensures policy.Converged(s) <==>
      || policy.convergence in {"single_pass", "after_first_iteration", "always"} || s.converged
      || (s.residual.Some? && policy.residualThreshold.Some? && s.residual.value <= policy.residualThreshold.value)
    ensures policy.OverBudget(s) <==> policy.budgetMs > 0 && s.elapsedMs >= policy.budgetMs
    ensures policy.Max() >= 1 && (policy.Max() == policy.maxIterations || (policy.Max() == 1 && policy.maxIterations <= 0))
  {
  }

  function Repeat(components: seq<Id>, n: nat): seq<Id> {
    if n == 0 then [] else Repeat(components, n - 1) + components
  }

  lemma {:induction false} RepeatIn(components: seq<Id>, n: nat)
    ensures forall c :: c in Repeat(components, n) ==> c in components
  {
    if n > 0 {
      RepeatIn(components, n - 1);
    }
  }
}
