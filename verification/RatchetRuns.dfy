/** The shipped proposers driving the loop: deterministic, model-assisted and dry runs. */
module RatchetRuns {
  import opened Text
  import opened Domains
  import opened Disk
  import opened Surface
  import opened Guards
  import opened Trials
  import opened Propose
  import opened Ratchet
  import opened RatchetSweep
  import opened Regularity
  import Books = RatchetBooks
  import Agreement

  /** The deterministic proposer. It looks at the context again, so it may also find itself
      canceled. */
  ghost predicate ProposesDet(env: Env, o: Orders)
    requires o.Valid()
  {
    forall knobs, trials ::
      env.propose(knobs, trials) == DetPropose(o, knobs, trials) || env.propose(knobs, trials) == Canceled
  }

  /** The model-assisted proposer; without a model it is the deterministic one. */
  ghost predicate ProposesShipped(env: Env, o: Orders, rewrite: Option<(Knob, seq<Trial>) -> Option<string>>,
                                  every: int)
    requires o.Valid()
  {
    forall knobs, trials ::
      || env.propose(knobs, trials) == LlmPropose(o, rewrite, every, knobs, trials)
      || env.propose(knobs, trials) == Canceled
  }

  /** Every proposal is a sweep move: what both shipped proposers guarantee. */
  ghost predicate ProposesSweep(env: Env, o: Orders)
    requires o.Valid()
  {
    forall knobs, trials ::
      env.propose(knobs, trials).Propose? ==> SomeMove(o, knobs, trials, env.propose(knobs, trials).change)
  }

  ghost predicate SomeMove(o: Orders, knobs: seq<Knob>, trials: seq<Trial>, c: Change)
    requires o.Valid()
  {
    exists i :: 0 <= i < |knobs| && SweepMove(o, knobs, trials, i, c)
  }

  lemma DetMoves(o: Orders, knobs: seq<Knob>, trials: seq<Trial>)
    requires o.Valid() && DetPropose(o, knobs, trials).Propose?
    ensures SomeMove(o, knobs, trials, DetPropose(o, knobs, trials).change)
  {
    var c := DetPropose(o, knobs, trials).change;
    var i :| 0 <= i < |knobs| && Chosen(o, knobs, trials, i, c);
    assert SweepMove(o, knobs, trials, i, c);
  }

  lemma DetIsShipped(env: Env, o: Orders, every: int)
    requires o.Valid() && ProposesDet(env, o)
    ensures ProposesShipped(env, o, None, every)
  {
  }

  /** However the model behaves, the shipped proposers only ever make sweep moves. */
  lemma ShippedSweeps(env: Env, o: Orders, rewrite: Option<(Knob, seq<Trial>) -> Option<string>>, every: int)
    requires o.Valid() && ProposesShipped(env, o, rewrite, every)
    ensures ProposesSweep(env, o)
  {
    forall knobs, trials | env.propose(knobs, trials).Propose?
      ensures SomeMove(o, knobs, trials, env.propose(knobs, trials).change)
    {
      LlmMoves(o, rewrite, every, knobs, trials);
    }
  }

  lemma LlmMoves(o: Orders, rewrite: Option<(Knob, seq<Trial>) -> Option<string>>, every: int,
                 knobs: seq<Knob>, trials: seq<Trial>)
    requires o.Valid() && LlmPropose(o, rewrite, every, knobs, trials).Propose?
    ensures SomeMove(o, knobs, trials, LlmPropose(o, rewrite, every, knobs, trials).change)
  {
    var p := LlmPropose(o, rewrite, every, knobs, trials);
    if p == DetPropose(o, knobs, trials) {
      DetMoves(o, knobs, trials);
    } else {
      var i := PromptMoveSound(rewrite.value, knobs, trials);
      assert TextMove(knobs, trials, i, p.change);
      assert SweepMove(o, knobs, trials, i, p.change);
    }
  }

  /** One pass of the loop under a sweeping proposer is a step of a sweep. */
  lemma StepSweeps(opts: Options, env: Env, base: Score, o: Orders, a: RunState, b: RunState)
    requires o.Valid() && ProposesSweep(env, o) && Step(opts, env, base, a, b)
    ensures SweepStep(o, a, b)
  {
    var c := Head(opts, env, a).change;
    assert SomeMove(o, a.knobs, a.trials, c);
    TrialMoves(opts, env, base, a, c);
    Books.TrialVerdict(opts, env, base, a, c);
    var t := RunTrial(opts, env, base, a, c).trial;
    assert b.trials == a.trials + [t] && ChangeOf(t) == c;
  }

  /** Every execution under a sweeping proposer is a sweep. */
  lemma {:induction false} ExecutionSweeps(opts: Options, env: Env, base: Score, o: Orders, start: RunState,
                                           sts: seq<RunState>)
    requires o.Valid() && ProposesSweep(env, o) && Execution(opts, env, base, start, sts) && start.trials == []
    ensures Sweep(o, sts)
  {
    if |sts| > 1 {
      ExecutionPrefix(opts, env, base, start, sts);
      ExecutionSweeps(opts, env, base, o, start, sts[..|sts| - 1]);
      StepSweeps(opts, env, base, o, sts[|sts| - 2], sts[|sts| - 1]);
      SweepSnoc(o, sts);
    }
  }

  lemma SweepSnoc(o: Orders, sts: seq<RunState>)
    requires o.Valid() && |sts| > 1 && Sweep(o, sts[..|sts| - 1]) && SweepStep(o, sts[|sts| - 2], sts[|sts| - 1])
    ensures Sweep(o, sts)
  {
    forall i | 0 < i < |sts| ensures SweepStep(o, sts[i - 1], sts[i]) {
      if i < |sts| - 1 {
        assert SweepStep(o, sts[..|sts| - 1][i - 1], sts[..|sts| - 1][i]);
      }
    }
  }

  /** A deterministic proposal is never refused: on a surface that agrees with its disk, Apply
      accepts every one of them, whatever value the sweep has reached and whatever ids collide. */
  lemma DetProposalApplies(o: Orders, layout: Layout, disk: Files, knobs: seq<Knob>, trials: seq<Trial>)
    requires o.Valid() && Agrees(layout, disk, knobs) && DetPropose(o, knobs, trials).Propose?
    ensures Apply(knobs, disk, DetPropose(o, knobs, trials).change, None).Written?
  {
    var c := DetPropose(o, knobs, trials).change;
    var i :| 0 <= i < |knobs| && Chosen(o, knobs, trials, i, c);
    CandidateApplies(layout, disk, knobs, i, c);
  }

  /** A candidate of any knob can be written to the last knob of its id. */
  lemma CandidateApplies(layout: Layout, disk: Files, knobs: seq<Knob>, i: nat, c: Change)
    requires Agrees(layout, disk, knobs) && i < |knobs| && c.knobID == knobs[i].id
    requires c.after in knobs[i].domain.Candidates()
    ensures Apply(knobs, disk, c, None).Written? && Lookup(knobs, c.knobID).Some?
  {
    var at := Lookup(knobs, c.knobID).value;
    AgreeingRegular(disk, layout, knobs);
    assert knobs[at].domain == knobs[i].domain;
    SoundApplies(layout, disk, knobs, at, c);
  }

  lemma SoundApplies(layout: Layout, disk: Files, knobs: seq<Knob>, at: nat, c: Change)
    requires Agrees(layout, disk, knobs) && at < |knobs| && Lookup(knobs, c.knobID) == Some(at)
    requires c.after in knobs[at].domain.Candidates()
    ensures Apply(knobs, disk, c, None).Written?
  {
    Agreement.AgreeingKnobSound(disk, layout, knobs, at);
    Agreement.SoundMayWrite(disk, layout, knobs[at]);
    CandidatesCoherent(knobs[at].domain);
    WouldWrite(knobs, disk, c, at);
  }

  lemma WouldWrite(knobs: seq<Knob>, disk: Files, c: Change, i: nat)
    requires i < |knobs| && Lookup(knobs, c.knobID) == Some(i)
    requires MayWrite(knobs[i]) && Load(disk, knobs[i].file).Some?
    requires knobs[i].domain.Allows(c.after) && knobs[i].domain.Normalize(c.after) == c.after
    ensures Apply(knobs, disk, c, None).Written?
  {
  }

  lemma StepChooses(opts: Options, env: Env, base: Score, o: Orders, a: RunState, b: RunState)
    requires o.Valid() && ProposesDet(env, o) && Step(opts, env, base, a, b)
    ensures ChosenStep(o, a, b)
  {
    var c := Head(opts, env, a).change;
    assert DetPropose(o, a.knobs, a.trials) == Proposal.Propose(c);
    Books.TrialVerdict(opts, env, base, a, c);
    assert ChangeOf(b.trials[|b.trials| - 1]) == c;
  }

  lemma ExecutionDetSweeps(opts: Options, env: Env, base: Score, o: Orders, start: RunState, sts: seq<RunState>)
    requires o.Valid() && ProposesDet(env, o) && Execution(opts, env, base, start, sts) && start.trials == []
    ensures DetSweep(o, sts)
  {
    DetIsShipped(env, o, 0);
    ShippedSweeps(env, o, None, 0);
    ExecutionSweeps(opts, env, base, o, start, sts);
    forall i | 0 < i < |sts| ensures ChosenStep(o, sts[i - 1], sts[i]) {
      StepChooses(opts, env, base, o, sts[i - 1], sts[i]);
    }
  }

  /** A deterministic run, live or dry, on any surface, with any evaluator, any budget and any
      faults, ends within the sum of |Candidates| trials and never repeats a pair. */
  lemma DeterministicRunIsFinite(opts: Options, env: Env, base: Score, o: Orders, start: RunState)
    requires o.Valid() && ProposesDet(env, o) && start.trials == []
    ensures var st := Loop(opts, env, base, start).state;
            |st.trials| <= SpaceBound(start.knobs) && |Pairs(st.trials)| == |st.trials|
  {
    var sts := LoopExecutes(opts, env, base, start);
    ExecutionDetSweeps(opts, env, base, o, start, sts);
    SweepIsBounded(o, sts);
    NoPairTwice(o, sts);
  }

  /** If a deterministic or model-assisted run on a reflected surface reports the surface
      exhausted, every candidate of every knob was tried, except possibly a value a knob of its id
      started with: its own, when the id is its own. */
  lemma ExhaustedRunSwept(opts: Options, env: Env, base: Score, o: Orders,
                          rewrite: Option<(Knob, seq<Trial>) -> Option<string>>, every: int,
                          start: RunState, j: nat, v: string)
    requires o.Valid() && ProposesShipped(env, o, rewrite, every) && start.trials == [] && Regular(start.knobs)
    requires Loop(opts, env, base, start).reason == StopExhausted
    requires j < |start.knobs| && v in start.knobs[j].domain.Candidates()
    ensures var trials, id := Loop(opts, env, base, start).state.trials, start.knobs[j].id;
            && (Tried(trials, id, v) || StartsAt(start.knobs, id, v))
            && (Sole(start.knobs, j) ==> Tried(trials, id, v) || v == start.knobs[j].value)
  {
    var sts := LoopExecutes(opts, env, base, start);
    Books.StopReasonIsTrue(opts, env, base, start);
    ShippedSweeps(env, o, rewrite, every);
    ExecutionSweeps(opts, env, base, o, start, sts);
    ExhaustedMeansSwept(o, sts, j, v);
  }

  /** Before the run: when the budget and the starting values together fall short of the space, a
      spent experiment budget does leave something untried, whatever the evaluator keeps. */
  lemma SmallBudgetSentence(opts: Options, env: Env, base: Score, o: Orders, start: RunState)
    requires o.Valid() && ProposesDet(env, o) && start.trials == [] && Regular(start.knobs)
    requires Loop(opts, env, base, start).reason == StopExperiments && opts.budget.maxExperiments >= 0
    requires opts.budget.maxExperiments + |Starting(start.knobs)| < |Space(start.knobs)|
    ensures var end := Loop(opts, env, base, start).state; !DetPropose(o, end.knobs, end.trials).NoProposal?
  {
    var sts := LoopExecutes(opts, env, base, start);
    Books.StopReasonIsTrue(opts, env, base, start);
    ExecutionDetSweeps(opts, env, base, o, start, sts);
    SmallBudgetNotExhausted(o, sts);
  }

  // ---- dry runs ------------------------------------------------------------

  /** A dry run touches nothing: disk and surface are the start's in every state, nothing is
      kept, no token is spent and no trial carries an error. */
  lemma {:induction false} DryRunTouchesNothing(opts: Options, env: Env, base: Score, start: RunState,
                                                sts: seq<RunState>)
    requires opts.dryRun && Execution(opts, env, base, start, sts)
    ensures var st := sts[|sts| - 1];
            st.disk == start.disk && st.knobs == start.knobs && st.kept == start.kept && st.tokens == start.tokens
  {
    if |sts| > 1 {
      ExecutionPrefix(opts, env, base, start, sts);
      DryRunTouchesNothing(opts, env, base, start, sts[..|sts| - 1]);
    }
  }

  /** A dry run never consults the evaluator: any two evaluators give the same run. */
  lemma {:induction false} DryRunIgnoresEvaluator(opts: Options, env: Env, other: (nat, Files) -> Outcome, base: Score,
                                                  st: RunState)
    requires opts.dryRun
    ensures Loop(opts, env, base, st) == Loop(opts, env.(evaluate := other), base, st)
    decreases opts.budget.maxExperiments - |st.trials|
  {
    var env' := env.(evaluate := other);
    assert Head(opts, env, st) == Head(opts, env', st);
    if Head(opts, env, st).Try? {
      var c := Head(opts, env, st).change;
      assert Advance(opts, env, base, st, c) == Advance(opts, env', base, st, c);
      DryRunIgnoresEvaluator(opts, env, other, base, Advance(opts, env, base, st, c));
    }
  }
}
