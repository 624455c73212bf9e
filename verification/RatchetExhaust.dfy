/** Runs that do reach the end of the space, and the budget that misreports each of them. */
module RatchetExhaust {
  import opened Text
  import opened Disk
  import opened Surface
  import opened Guards
  import opened Trials
  import opened Propose
  import opened Seeds
  import opened Ratchet
  import opened RatchetSweep
  import opened Regularity
  import opened RatchetRuns
  import opened RatchetSentences
  import opened RatchetAligned
  import Dry = RatchetDry

  /** Nothing outside the loop goes wrong: every trial is scored, for free, in no time. */
  ghost predicate Untroubled(opts: Options, env: Env) {
    && (forall n, disk :: env.evaluate(n, disk).Scored? && env.evaluate(n, disk).score.tokens == 0)
    && (forall n :: env.faults(n) == Faults(None, None, None))
    && (forall n :: !env.canceled(n))
    && (forall n :: env.clock(n) - env.started < opts.budget.maxWallClock)
  }

  ghost predicate Asks(env: Env, o: Orders)
    requires o.Valid()
  {
    forall knobs, trials :: env.propose(knobs, trials) == DetPropose(o, knobs, trials)
  }

  lemma UntroubledTrial(opts: Options, env: Env, base: Score, st: RunState, c: Change)
    requires Untroubled(opts, env) && Apply(st.knobs, st.disk, c, None).Written?
    ensures var t := RunTrial(opts, env, base, st, c).trial; t.error == "" && t.score.tokens == 0
  {
    TrialRecord(opts, env, base, st, c);
    var t := Opening(opts, st, c);
    if !opts.dryRun {
      var disk := Apply(st.knobs, st.disk, c, None).disk;
      ScoredClean(opts, base, t, env.evaluate(|st.trials| + 1, disk));
    }
  }

  lemma ScoredClean(opts: Options, base: Score, t: Trial, outcome: Outcome)
    requires outcome.Scored? && t.error == ""
    ensures Verdict(opts, base, t, outcome).error == "" && Verdict(opts, base, t, outcome).score == outcome.score
  {
  }

  lemma UntroubledStep(opts: Options, env: Env, base: Score, o: Orders, layout: Layout, a: RunState, b: RunState)
    requires o.Valid() && Asks(env, o) && Untroubled(opts, env)
    requires Agrees(layout, a.disk, a.knobs) && Step(opts, env, base, a, b)
    ensures LastError(b) == "" && b.tokens == a.tokens
  {
    var c := Head(opts, env, a).change;
    assert DetPropose(o, a.knobs, a.trials) == Proposal.Propose(c);
    DetProposalApplies(o, layout, a.disk, a.knobs, a.trials);
    UntroubledTrial(opts, env, base, a, c);
  }

  lemma {:induction false} UntroubledRun(opts: Options, env: Env, base: Score, o: Orders, layout: Layout,
                                         start: RunState, sts: seq<RunState>)
    requires o.Valid() && Asks(env, o) && Untroubled(opts, env) && Dry.HonestFrom(opts, env, base, start)
    requires Separate(layout) && start.knobs == Reflect(start.disk, layout) && start.trials == []
    requires Execution(opts, env, base, start, sts)
    ensures LastError(sts[|sts| - 1]) == "" && sts[|sts| - 1].tokens == start.tokens
  {
    if |sts| > 1 {
      var front := sts[..|sts| - 1];
      ExecutionPrefix(opts, env, base, start, sts);
      UntroubledRun(opts, env, base, o, layout, start, front);
      HonestAgrees(opts, env, base, layout, start, front);
      UntroubledStep(opts, env, base, o, layout, sts[|sts| - 2], sts[|sts| - 1]);
    }
  }

  lemma OnlyExhaustion(opts: Options, env: Env, st: RunState, reason: StopReason, o: Orders)
    requires o.Valid() && Asks(env, o) && Untroubled(opts, env) && Head(opts, env, st) == Halt(reason)
    requires |st.trials| < opts.budget.maxExperiments && st.tokens < opts.budget.maxTokens
    ensures reason == StopExhausted
  {
    assert env.propose(st.knobs, st.trials) == DetPropose(o, st.knobs, st.trials);
  }

  /** Left alone with a budget larger than its space, the deterministic sweep of an aligned project
      ends because the surface is exhausted. */
  lemma UntroubledRunExhausts(opts: Options, env: Env, base: Score, o: Orders, layout: Layout, start: RunState)
    requires o.Valid() && Asks(env, o) && Untroubled(opts, env)
    requires Separate(layout) && start.knobs == Reflect(start.disk, layout) && Aligned(start.knobs)
    requires start.trials == [] && start.tokens < opts.budget.maxTokens
    requires opts.budget.maxExperiments > SpaceBound(start.knobs)
    ensures Loop(opts, env, base, start).reason == StopExhausted
  {
    ReflectRegular(start.disk, layout);
    AlignedIsHonest(opts, env, base, o, start);
    var sts := LoopExecutes(opts, env, base, start);
    UntroubledRun(opts, env, base, o, layout, start, sts);
    DeterministicRunIsFinite(opts, env, base, o, start);
    OnlyExhaustion(opts, env, sts[|sts| - 1], Loop(opts, env, base, start).reason, o);
  }

  /** Some budget misreports every such run: it ends in the same state and says the surface was NOT
      exhausted. */
  lemma SomeBudgetMisreports(opts: Options, env: Env, base: Score, o: Orders, layout: Layout, start: RunState)
    returns (n: nat)
    requires o.Valid() && Asks(env, o) && Untroubled(opts, env)
    requires Separate(layout) && start.knobs == Reflect(start.disk, layout) && Aligned(start.knobs)
    requires start.trials == [] && start.tokens < opts.budget.maxTokens
    requires opts.budget.maxExperiments > SpaceBound(start.knobs)
    ensures var f, g := Loop(opts, env, base, start), Loop(Capped(opts, n), env, base, start);
            && f.reason == StopExhausted && g == Finish(f.state, StopExperiments)
            && DetPropose(o, g.state.knobs, g.state.trials).NoProposal?
  {
    UntroubledRunExhausts(opts, env, base, o, layout, start);
    n := |Loop(opts, env, base, start).state.trials|;
    TightBudgetMisreports(opts, env, base, start, n);
  }

  /** An evaluator that sees no difference, and nobody in the way. */
  ghost function Quiet(): Env {
    Env(Favoured(0), (_, _) => Scored(PrimaryOnly(0.0)), 0, _ => 0, _ => false, _ => false,
        _ => Faults(None, None, None))
  }

  lemma QuietUntroubled(n: nat)
    ensures Untroubled(Capped(DefaultOptions(), n), Quiet())
    ensures Favouring(0).Valid() && Asks(Quiet(), Favouring(0))
    ensures Capped(DefaultOptions(), n).budget.maxTokens > 0 && Capped(DefaultOptions(), n).budget.maxExperiments == n
  {
    FavouringValid(0);
  }

  /** So on every aligned project both runs exist under the default guards. */
  lemma QuietRunMisreports(layout: Layout, disk: Files) returns (opts: Options, n: nat)
    requires Separate(layout) && Aligned(Reflect(disk, layout))
    ensures var start := Start(disk, Reflect(disk, layout), PrimaryOnly(0.0));
            var f := Loop(opts, Quiet(), PrimaryOnly(0.0), start);
            var g := Loop(Capped(opts, n), Quiet(), PrimaryOnly(0.0), start);
            && opts.guards == DefaultGuards() && f.reason == StopExhausted && g == Finish(f.state, StopExperiments)
  {
    var start := Start(disk, Reflect(disk, layout), PrimaryOnly(0.0));
    opts := Capped(DefaultOptions(), SpaceBound(start.knobs) + 1);
    QuietUntroubled(SpaceBound(start.knobs) + 1);
    n := SomeBudgetMisreports(opts, Quiet(), PrimaryOnly(0.0), Favouring(0), layout, start);
  }
}
