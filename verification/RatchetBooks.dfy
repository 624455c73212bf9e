/** What a Result may be trusted to say: scores, guards, counters and the stop reason. */
module RatchetBooks {
  import opened Text
  import opened Surface
  import opened Guards
  import opened Trials
  import opened Ratchet

  // ---- one trial -----------------------------------------------------------

  /** The primary beat the champion by more than the margin. */
  ghost predicate Improves(opts: Options, t: Trial) {
    t.score.primary - t.baseline.primary > opts.minImprovement
  }

  /** A kept trial improved and tripped no guard against champion or baseline; a vetoed one
      improved and names the first guard it tripped, champion before baseline. */
  ghost predicate FairVerdict(opts: Options, base: Score, t: Trial) {
    && (t.kept ==>
          && !t.dryRun && t.error == "" && t.guard == "" && Improves(opts, t)
          && Passes(opts.guards, t.baseline, t.score) && Passes(opts.guards, base, t.score))
    && (t.guard != "" ==>
          && !t.dryRun && !t.kept && Improves(opts, t)
          && (|| CheckGuards(t.baseline, t.score, opts.guards) == Some(t.guard)
              || (Passes(opts.guards, t.baseline, t.score)
                  && CheckGuards(base, t.score, opts.guards) == Some(t.guard))))
  }

  /** v is t with a verdict added. */
  ghost predicate SameOpening(t: Trial, v: Trial) {
    && v.number == t.number && v.baseline == t.baseline && v.dryRun == t.dryRun
    && v.knobID == t.knobID && v.before == t.before && v.after == t.after
  }

  /** The keep rule from both sides: a scored trial is kept if and only if it improves and
      passes every guard against both references. */
  lemma VerdictExact(opts: Options, base: Score, t: Trial, outcome: Outcome)
    requires !t.kept && t.error == "" && t.guard == "" && !t.dryRun
    ensures var v := Verdict(opts, base, t, outcome);
            && SameOpening(t, v) && FairVerdict(opts, base, v)
            && (outcome.Scored? ==> v.score == outcome.score)
            && (v.kept <==>
                  && outcome.Scored? && Improves(opts, v)
                  && Passes(opts.guards, t.baseline, v.score) && Passes(opts.guards, base, v.score))
  {
  }

  lemma TrialVerdict(opts: Options, env: Env, base: Score, st: RunState, c: Change)
    ensures var t := RunTrial(opts, env, base, st, c).trial;
            SameOpening(Opening(opts, st, c), t) && FairVerdict(opts, base, t)
    ensures RunTrial(opts, env, base, st, c).trial.kept ==> !opts.dryRun
  {
    TrialRecord(opts, env, base, st, c);
    if TrialEffect(opts, env, base, st, c) != Untouched {
      var applied := Apply(st.knobs, st.disk, c, env.faults(|st.trials|).write);
      VerdictExact(opts, base, Opening(opts, st, c), env.evaluate(|st.trials| + 1, applied.disk));
    }
  }

  // ---- invariants of every run ---------------------------------------------

  /** The champion after n trials: the last kept score, or the baseline. */
  function Champion(base: Score, trials: seq<Trial>): Score {
    if trials == [] then base
    else
      var t := trials[|trials| - 1];
      if t.kept then t.score else Champion(base, trials[..|trials| - 1])
  }

  function KeptChanges(trials: seq<Trial>): seq<Change> {
    if trials == [] then []
    else
      var t := trials[|trials| - 1];
      KeptChanges(trials[..|trials| - 1]) + if t.kept then [Change(t.knobID, t.before, t.after)] else []
  }

  /** Result's fields are functions of its trial list, and each trial records the champion it
      was measured against. */
  ghost predicate Booked(base: Score, best: Score, trials: seq<Trial>, kept: seq<Change>, tokens: int) {
    && best == Champion(base, trials)
    && kept == KeptChanges(trials) && |kept| == CountKept(trials)
    && tokens == base.tokens + TokensSpent(trials)
    && forall i :: 0 <= i < |trials| ==>
         trials[i].number == i + 1 && trials[i].baseline == Champion(base, trials[..i])
  }

  lemma AdvanceBooked(opts: Options, env: Env, base: Score, st: RunState, c: Change)
    requires Booked(base, st.best, st.trials, st.kept, st.tokens)
    ensures var b := Advance(opts, env, base, st, c); Booked(base, b.best, b.trials, b.kept, b.tokens)
  {
    TrialVerdict(opts, env, base, st, c);
    BookTrial(base, st, RunTrial(opts, env, base, st, c).trial, c);
  }

  lemma BookTrial(base: Score, st: RunState, t: Trial, c: Change)
    requires Booked(base, st.best, st.trials, st.kept, st.tokens)
    requires t.number == |st.trials| + 1 && t.baseline == st.best
    requires t.knobID == c.knobID && t.before == c.before && t.after == c.after
    ensures Booked(base, if t.kept then t.score else st.best, st.trials + [t],
                   if t.kept then st.kept + [c] else st.kept, st.tokens + t.score.tokens)
  {
    var trials := st.trials + [t];
    CountersSnoc(st.trials, t);
    assert trials[..|st.trials|] == st.trials;
    forall i | 0 <= i < |trials|
      ensures trials[i].number == i + 1 && trials[i].baseline == Champion(base, trials[..i])
    {
      if i < |st.trials| {
        assert trials[..i] == st.trials[..i];
      }
    }
  }

  /** Counts of kept, reverted and vetoed trials add up. */
  ghost predicate Tallied(opts: Options, st: RunState) {
    && (!opts.dryRun ==> |st.kept| + Reverted(st.trials) == |st.trials|)
    && (opts.dryRun ==> st.kept == [] && Reverted(st.trials) == 0)
    && GuardVetoes(st.trials) <= Reverted(st.trials)
  }

  lemma AdvanceTallied(opts: Options, env: Env, base: Score, st: RunState, c: Change)
    requires Tallied(opts, st)
    ensures Tallied(opts, Advance(opts, env, base, st, c))
  {
    TrialVerdict(opts, env, base, st, c);
    CountersSnoc(st.trials, RunTrial(opts, env, base, st, c).trial);
  }

  /** n steps of a real margin. */
  function Times(n: nat, x: real): real { if n == 0 then 0.0 else Times(n - 1, x) + x }

  /** The champion gained more than the margin with every kept change, and tripped no guard
      against the baseline. */
  ghost predicate Climbed(opts: Options, base: Score, st: RunState) {
    && (st.kept == [] ==> st.best == base)
    && (st.kept != [] ==>
          && st.best.primary > base.primary + Times(|st.kept|, opts.minImprovement)
          && Passes(opts.guards, base, st.best))
  }

  lemma ClimbedNext(opts: Options, base: Score, st: RunState, c: Change, t: Trial, b: RunState)
    requires Climbed(opts, base, st) && FairVerdict(opts, base, t) && t.baseline == st.best
    requires b.best == (if t.kept then t.score else st.best) && b.kept == if t.kept then st.kept + [c] else st.kept
    ensures Climbed(opts, base, b)
  {
    if t.kept {
      ClimbOne(opts, base, st.best, |st.kept|, t);
    }
  }

  lemma AdvanceKeeps(opts: Options, env: Env, base: Score, st: RunState, c: Change) returns (t: Trial)
    ensures var b := Advance(opts, env, base, st, c);
            b.best == (if t.kept then t.score else st.best) && b.kept == if t.kept then st.kept + [c] else st.kept
    ensures FairVerdict(opts, base, t) && t.baseline == st.best
  {
    t := RunTrial(opts, env, base, st, c).trial;
    TrialVerdict(opts, env, base, st, c);
  }

  lemma AdvanceClimbed(opts: Options, env: Env, base: Score, st: RunState, c: Change)
    requires Climbed(opts, base, st)
    ensures Climbed(opts, base, Advance(opts, env, base, st, c))
  {
    var t := AdvanceKeeps(opts, env, base, st, c);
    ClimbedNext(opts, base, st, c, t, Advance(opts, env, base, st, c));
  }

  /** A kept trial is one margin above the champion it beat. */
  lemma ClimbOne(opts: Options, base: Score, best: Score, n: nat, t: Trial)
    requires n == 0 ==> best == base
    requires n > 0 ==> best.primary > base.primary + Times(n, opts.minImprovement)
    requires t.kept && t.baseline == best && FairVerdict(opts, base, t)
    ensures t.score.primary > base.primary + Times(n + 1, opts.minImprovement) && Passes(opts.guards, base, t.score)
  {
    OneMore(n, opts.minImprovement);
  }

  lemma OneMore(n: nat, x: real)
    ensures Times(n + 1, x) == Times(n, x) + x && Times(0, x) == 0.0
  {
  }

  /** Bookkeeping over whole runs, for every environment: Best is the last kept score, each
      trial's Baseline is the champion at that time, TokensUsed is the baseline plus all
      trials, Kept + Reverted is Experiments and vetoes are reverts; every kept trial beat the
      champion it was measured against by more than the margin, so kept primaries climb by more
      than the margin each, and Best passes every guard against the run's own baseline
      after any number of kept trials. */
  lemma {:induction false} RunBooks(opts: Options, env: Env, base: Score, start: RunState, sts: seq<RunState>)
    requires Execution(opts, env, base, start, sts)
    requires start.trials == [] && start.kept == [] && start.best == base && start.tokens == base.tokens
    ensures var st := sts[|sts| - 1];
            && Booked(base, st.best, st.trials, st.kept, st.tokens) && Tallied(opts, st) && Climbed(opts, base, st)
            && |st.trials| == |sts| - 1
            && forall i :: 0 <= i < |st.trials| ==> FairVerdict(opts, base, st.trials[i])
  {
    if |sts| > 1 {
      var a := sts[|sts| - 2];
      ExecutionPrefix(opts, env, base, start, sts);
      RunBooks(opts, env, base, start, sts[..|sts| - 1]);
      AdvanceBooked(opts, env, base, a, Head(opts, env, a).change);
      AdvanceTallied(opts, env, base, a, Head(opts, env, a).change);
      AdvanceClimbed(opts, env, base, a, Head(opts, env, a).change);
      TrialVerdict(opts, env, base, a, Head(opts, env, a).change);
    }
  }

  /** Over whole runs under the default guards: no kept score is past any of their four limits, from
      the champion it beat or from the run's own baseline. In particular its measured apply rate is
      never more than two points below either. */
  lemma KeptWithinLimits(opts: Options, env: Env, base: Score, start: RunState, sts: seq<RunState>, k: nat, i: nat)
    requires Execution(opts, env, base, start, sts) && opts.guards == DefaultGuards()
    requires start.trials == [] && start.kept == [] && start.best == base && start.tokens == base.tokens
    requires var trials := sts[|sts| - 1].trials; k < |trials| && trials[k].kept && i < 4
    ensures var t := sts[|sts| - 1].trials[k];
            && LimitHolds(i, base, t.score) && LimitHolds(i, t.baseline, t.score)
            && (base.editApplyRate >= 0.0 && t.score.editApplyRate >= 0.0 ==>
                  t.score.editApplyRate >= base.editApplyRate - 0.02 - 0.000000000001)
  {
    RunBooks(opts, env, base, start, sts);
    var t := sts[|sts| - 1].trials[k];
    DefaultsPassIff(base, t.score);
    DefaultsPassIff(t.baseline, t.score);
    assert LimitHolds(3, base, t.score);
  }

  /** With a positive margin and a bounded primary, only so many changes can ever be kept. */
  lemma KeptIsBounded(opts: Options, base: Score, st: RunState, top: real)
    requires Climbed(opts, base, st) && opts.minImprovement > 0.0 && st.best.primary <= top
    ensures st.kept != [] ==> Times(|st.kept|, opts.minImprovement) < top - base.primary
  {
  }

  // ---- stopping ------------------------------------------------------------

  /** What each stop reason claims about the state the loop ended in. */
  ghost predicate ReasonTrue(opts: Options, env: Env, st: RunState, reason: StopReason) {
    var n := |st.trials|;
    match reason
    case StopExperiments => n >= opts.budget.maxExperiments
    case StopWallClock => env.clock(n) - env.started >= opts.budget.maxWallClock
    case StopTokens => st.tokens >= opts.budget.maxTokens
    case StopExhausted => env.propose(st.knobs, st.trials).NoProposal?
    case StopCanceled =>
      env.canceled(n) || env.propose(st.knobs, st.trials).Canceled? || (LastError(st) != "" && env.canceledAfter(n))
    case StopEvalFailed =>
      env.propose(st.knobs, st.trials).Failed? || (LastError(st) != "" && !env.canceledAfter(n))
    case StopDryRun => false
    case StopNoSurface => false
  }

  lemma HaltIsTrue(opts: Options, env: Env, st: RunState, reason: StopReason)
    requires Head(opts, env, st) == Halt(reason)
    ensures ReasonTrue(opts, env, st, reason)
  {
  }

  /** The caps bind in their order, then the context, then the proposer: each reason is given exactly if
      nothing before it applies. */
  lemma HeadExact(opts: Options, env: Env, st: RunState, c: Change)
    ensures var n := |st.trials|;
            var full := n >= opts.budget.maxExperiments;
            var late := env.clock(n) - env.started >= opts.budget.maxWallClock;
            var spent := st.tokens >= opts.budget.maxTokens;
            var free := !full && !late && !spent && !env.canceled(n);
            var p := env.propose(st.knobs, st.trials);
            && (Head(opts, env, st) == Halt(StopExperiments) <==> full)
            && (Head(opts, env, st) == Halt(StopWallClock) <==> !full && late)
            && (Head(opts, env, st) == Halt(StopTokens) <==> !full && !late && spent)
            && (Head(opts, env, st) == Halt(StopCanceled) <==>
                  (!full && !late && !spent && env.canceled(n)) || (free && p.Canceled?))
            && (Head(opts, env, st) == Halt(StopExhausted) <==> free && p.NoProposal?)
            && (Head(opts, env, st) == Halt(StopEvalFailed) <==> free && p.Failed?)
            && (Head(opts, env, st) == Try(c) <==> free && p.Propose? && p.change == c)
  {
  }

  /** Only the last trial of a run can carry an error. */
  ghost predicate CleanHistory(st: RunState) {
    forall i :: 0 <= i < |st.trials| - 1 ==> st.trials[i].error == ""
  }

  lemma StepStaysClean(opts: Options, env: Env, base: Score, a: RunState, b: RunState)
    requires Step(opts, env, base, a, b) && CleanHistory(a)
    ensures CleanHistory(b) && |b.trials| == |a.trials| + 1 && |a.trials| < opts.budget.maxExperiments
  {
    HeadWithinBudget(opts, env, a);
    assert b.trials[..|a.trials|] == a.trials;
    forall i | 0 <= i < |b.trials| - 1 ensures b.trials[i].error == "" {
      assert b.trials[i] == a.trials[i];
    }
  }

  lemma {:induction false} OnlyLastErrs(opts: Options, env: Env, base: Score, start: RunState, sts: seq<RunState>)
    requires Execution(opts, env, base, start, sts) && start.trials == []
    ensures CleanHistory(sts[|sts| - 1])
    ensures opts.budget.maxExperiments >= 0 ==> |sts[|sts| - 1].trials| <= opts.budget.maxExperiments
    ensures opts.budget.maxExperiments < 0 ==> sts[|sts| - 1].trials == []
  {
    if |sts| > 1 {
      var a := sts[|sts| - 2];
      ExecutionPrefix(opts, env, base, start, sts);
      OnlyLastErrs(opts, env, base, start, sts[..|sts| - 1]);
      StepStaysClean(opts, env, base, a, sts[|sts| - 1]);
    }
  }

  lemma HeadWithinBudget(opts: Options, env: Env, st: RunState)
    requires Head(opts, env, st).Try?
    ensures |st.trials| < opts.budget.maxExperiments
    ensures env.clock(|st.trials|) - env.started < opts.budget.maxWallClock && st.tokens < opts.budget.maxTokens
  {
  }

  /** Every live run stops, for a reason that is true of the state it stopped in, having run no
      more experiments than its budget, with at most its last trial in error. */
  lemma StopReasonIsTrue(opts: Options, env: Env, base: Score, start: RunState)
    requires start.trials == []
    ensures var f := Loop(opts, env, base, start);
            && ReasonTrue(opts, env, f.state, f.reason)
            && CleanHistory(f.state)
            && |f.state.trials| <= (if opts.budget.maxExperiments < 0 then 0 else opts.budget.maxExperiments)
  {
    var sts := LoopExecutes(opts, env, base, start);
    OnlyLastErrs(opts, env, base, start, sts);
    var f := Loop(opts, env, base, start);
    if LastError(f.state) == "" {
      HaltIsTrue(opts, env, f.state, f.reason);
    }
  }
}
