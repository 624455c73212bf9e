/** The loop as the source writes it: an object over a live surface and a disk, proved to
    compute the transition system and to leave only recoverable disks behind. */
module RatchetRun {
  import opened Text
  import opened Disk
  import opened Surface
  import opened LiveSurface
  import opened Guards
  import opened Trials
  import opened Propose
  import R = Ratchet
  import Frame = RatchetFrame
  import Dry = RatchetDry
  import Snap = Snapshot

  /** Result, without its texts and times. */
  datatype Result = Result(baseline: Score, best: Score, kept: seq<Change>, trials: seq<Trial>,
                           reason: R.StopReason, experiments: nat, tokens: int, dryRun: bool)

  /** How Run ends: a Result, an error before there is a baseline, or the baseline
      evaluator's panic, which nothing recovers. */
  datatype RunEnd = Finished(result: Result) | NoBaseline(error: string) | Crashed(message: string)

  /** What can go wrong while the snapshot is laid down. */
  datatype SnapshotPlan = NoSnapshot | TakeSnapshot(unreadable: set<Path>, mkdirError: Option<string>,
                                                    failAt: Option<nat>)

  /** A baseline that was not scored: the evaluator's panic goes through, its error is reported. */
  function Unmeasured(outcome: R.Outcome): (end: RunEnd)
    ensures end.Crashed? <==> outcome.Panicked?
  {
    match outcome
    case Panicked(m) => Crashed(m)
    case EvalError(e) => NoBaseline("baseline evaluation: " + e)
    case Scored(_) => NoBaseline("")
  }

  function Summary(opts: R.Options, base: Score, f: R.Finish): Result {
    Result(base, f.state.best, f.state.kept, f.state.trials, R.ReportedReason(opts, f), |f.state.trials|,
           f.state.tokens, opts.dryRun)
  }

  /** h is h0 followed by states that are all in allowed. */
  ghost predicate Through(h0: seq<Files>, h: seq<Files>, allowed: seq<Files>) {
    h0 <= h && forall i :: |h0| <= i < |h| ==> h[i] in allowed
  }

  lemma ThroughBoth(h0: seq<Files>, h1: seq<Files>, h2: seq<Files>, allowed: seq<Files>)
    requires Through(h0, h1, allowed) && Through(h1, h2, allowed)
    ensures Through(h0, h2, allowed)
  {
  }

  lemma ThroughMore(h0: seq<Files>, h: seq<Files>, a: seq<Files>, b: seq<Files>)
    requires Through(h0, h, a) && forall d :: d in a ==> d in b
    ensures Through(h0, h, b)
  {
  }

  /** h is h0 followed by states of a run that stay contained. */
  ghost predicate StaysContained(layout: Layout, start: R.RunState, h0: seq<Files>, h: seq<Files>) {
    h0 <= h && forall i :: |h0| <= i < |h| ==> Frame.Contained(layout, start.knobs, start.disk, h[i])
  }

  lemma TrialStaysContained(opts: R.Options, env: R.Env, base: Score, layout: Layout, start: R.RunState,
                            sts: seq<R.RunState>, c: Change, h0: seq<Files>, h1: seq<Files>, h2: seq<Files>)
    requires R.Execution(opts, env, base, start, sts) && Frame.Placed(layout, start.knobs)
    requires StaysContained(layout, start, h0, h1)
    requires Through(h1, h2, R.TrialDisks(opts, env, base, sts[|sts| - 1], c))
    ensures StaysContained(layout, start, h0, h2)
  {
    forall i | |h0| <= i < |h2| ensures Frame.Contained(layout, start.knobs, start.disk, h2[i]) {
      if i >= |h1| {
        Frame.MidTrialContained(opts, env, base, layout, start, sts, c, h2[i]);
      } else {
        assert h2[i] == h1[i];
      }
    }
  }

  /** The disks an applied trial passes through. */
  lemma AppliedDisks(opts: R.Options, env: R.Env, base: Score, st: R.RunState, c: Change)
    requires R.TrialEffect(opts, env, base, st, c) != R.Untouched
    ensures Apply(st.knobs, st.disk, c, env.faults(|st.trials|).write).Written?
    ensures Apply(st.knobs, st.disk, c, env.faults(|st.trials|).write).disk in R.TrialDisks(opts, env, base, st, c)
    ensures R.RunTrial(opts, env, base, st, c).disk in R.TrialDisks(opts, env, base, st, c)
  {
  }

  /** The loop has come to the last of sts, and if stop is set it ends there. */
  ghost predicate Reached(opts: R.Options, env: R.Env, base: Score, start: R.RunState, sts: seq<R.RunState>,
                          stop: Option<R.StopReason>)
  {
    && R.Execution(opts, env, base, start, sts)
    && var st := sts[|sts| - 1];
       && (stop.None? ==> R.LastError(st) == "" && R.Loop(opts, env, base, start) == R.Loop(opts, env, base, st))
       && (stop.Some? ==> R.Loop(opts, env, base, start) == R.Finish(st, stop.value))
  }

  lemma ReachedHalt(opts: R.Options, env: R.Env, base: Score, start: R.RunState, sts: seq<R.RunState>,
                    reason: R.StopReason)
    requires Reached(opts, env, base, start, sts, None) && R.Head(opts, env, sts[|sts| - 1]) == R.Halt(reason)
    ensures Reached(opts, env, base, start, sts, Some(reason))
  {
    Dry.LoopOnce(opts, env, base, sts[|sts| - 1]);
  }

  lemma ReachedStep(opts: R.Options, env: R.Env, base: Score, start: R.RunState, sts: seq<R.RunState>, c: Change)
    requires Reached(opts, env, base, start, sts, None) && R.Head(opts, env, sts[|sts| - 1]) == R.Try(c)
    ensures var next := R.Advance(opts, env, base, sts[|sts| - 1], c);
            Reached(opts, env, base, start, sts + [next],
                    if R.LastError(next) != "" then Some(R.ErrorStop(env, next)) else None)
    ensures |sts[|sts| - 1].trials| < opts.budget.maxExperiments
  {
    Dry.LoopOnce(opts, env, base, sts[|sts| - 1]);
    ExecutionSnoc(opts, env, base, start, sts, R.Advance(opts, env, base, sts[|sts| - 1], c));
  }

  /** The loop's local variables are those of the state it has come to. */
  ghost predicate Tallies(st: R.RunState, trials: seq<Trial>, kept: seq<Change>, tokens: int) {
    st.trials == trials && st.kept == kept && st.tokens == tokens
  }

  lemma TalliesNext(opts: R.Options, env: R.Env, base: Score, st: R.RunState, c: Change,
                    trials: seq<Trial>, kept: seq<Change>, tokens: int, t: Trial)
    requires Tallies(st, trials, kept, tokens) && t == R.RunTrial(opts, env, base, st, c).trial
    ensures Tallies(R.Advance(opts, env, base, st, c), trials + [t], if t.kept then kept + [c] else kept,
                    tokens + t.score.tokens)
    ensures R.LastError(R.Advance(opts, env, base, st, c)) == t.error
  {
  }

  /** One more state of the loop, with its variables. */
  lemma AlongNext(opts: R.Options, env: R.Env, base: Score, start: R.RunState, sts: seq<R.RunState>, c: Change,
                  trials: seq<Trial>, kept: seq<Change>, tokens: int, t: Trial)
    returns (longer: seq<R.RunState>)
    requires Reached(opts, env, base, start, sts, None) && R.Head(opts, env, sts[|sts| - 1]) == R.Try(c)
    requires Tallies(sts[|sts| - 1], trials, kept, tokens) && t == R.RunTrial(opts, env, base, sts[|sts| - 1], c).trial
    ensures longer == sts + [R.Advance(opts, env, base, sts[|sts| - 1], c)]
    ensures var next := longer[|longer| - 1];
            && Reached(opts, env, base, start, longer, if t.error != "" then Some(R.ErrorStop(env, next)) else None)
            && Tallies(next, trials + [t], if t.kept then kept + [c] else kept, tokens + t.score.tokens)
    ensures |trials| < opts.budget.maxExperiments
  {
    ReachedStep(opts, env, base, start, sts, c);
    TalliesNext(opts, env, base, sts[|sts| - 1], c, trials, kept, tokens, t);
    longer := sts + [R.Advance(opts, env, base, sts[|sts| - 1], c)];
  }

  class Ratchet {
    const surface: LiveSurface
    const fs: FileSystem
    const opts: R.Options
    const env: R.Env
    var baseline: Score
    var best: Score

    /** New: without a proposer the deterministic one of the seed, without guards the default ones,
        and defaults for the zero fields of the budget. The clock is part of env. */
    constructor (surface: LiveSurface, fs: FileSystem, opts: R.Options, env: R.Env, guards: Option<seq<Guard>>,
                 proposer: Option<(seq<Knob>, seq<Trial>) -> Proposal>, seed: Orders)
      requires seed.Valid()
      ensures this.surface == surface && this.fs == fs
      ensures this.opts == opts.(budget := R.WithDefaults(opts.budget),
                                 guards := if guards.Some? then guards.value else DefaultGuards())
      ensures this.opts.budget.maxExperiments == (if opts.budget.maxExperiments == 0 then 12
                                                  else opts.budget.maxExperiments)
      ensures this.opts.budget.maxWallClock == (if opts.budget.maxWallClock == 0 then 30 * 60 * 1_000_000_000
                                                else opts.budget.maxWallClock)
      ensures this.opts.budget.maxTokens == (if opts.budget.maxTokens == 0 then 2_000_000 else opts.budget.maxTokens)
      ensures this.env == env.(propose := this.env.propose)
      ensures proposer.Some? ==> this.env.propose == proposer.value
      ensures proposer.None? ==>
                forall knobs, trials :: this.env.propose(knobs, trials) == DetPropose(seed, knobs, trials)
    {
      this.surface := surface;
      this.fs := fs;
      this.opts := opts.(budget := R.WithDefaults(opts.budget),
                         guards := if guards.Some? then guards.value else DefaultGuards());
      this.env := env.(propose := if proposer.Some? then proposer.value else Seeded(seed));
      this.baseline := UnknownScore();
      this.best := UnknownScore();
    }

    ghost predicate Valid()
      reads this, surface, fs
    {
      surface.Valid() && fs.Valid()
    }

    /** The object shows the state st. */
    ghost predicate Shows(st: R.RunState)
      reads this, surface, fs
    {
      st.disk == fs.files && st.knobs == surface.knobs && st.best == best
    }

    /** The keep rule of runTrial on an evaluated trial. */
    method Judge(t0: Trial, outcome: R.Outcome) returns (t: Trial)
      requires t0.baseline == best
      ensures t == R.Verdict(opts, baseline, t0, outcome)
    {
      t := t0;
      match outcome {
        case Panicked(m) => t := t.(error := "evaluation panicked: " + m);
        case EvalError(e) => t := t.(error := e);
        case Scored(score) =>
          t := t.(score := score);
          if score.primary - best.primary <= opts.minImprovement {
            return;
          }
          var champion := CheckGuards(best, score, opts.guards);
          if champion.Some? {
            t := t.(guard := champion.value);
            return;
          }
          var drift := CheckGuards(baseline, score, opts.guards);
          if drift.Some? {
            t := t.(guard := drift.value);
            return;
          }
          t := t.(kept := true);
      }
    }

    /** The deferred restore: one captured file back on disk, one value back in memory. */
    method PutBack(before: Snap.SnapshotStore, c: Change)
      requires Valid() && before !in {this, surface, fs} && |before.files| == 1
      modifies surface`knobs, fs
      ensures Valid()
      ensures fs.files == Snap.RestoreAll(before.files, old(fs.files))
      ensures surface.knobs == SetValue(old(surface.knobs), c.knobID, c.before)
      ensures Through(old(fs.history), fs.history, [old(fs.files), fs.files])
    {
      Snap.FreedAll(before.files, {});
      var _ := before.Restore(fs, {});
      forall i | |old(fs.history)| <= i < |fs.history|
        ensures fs.history[i] in [old(fs.files), fs.files]
      {
        assert Snap.PartlyRestored(before.files, old(fs.files), fs.history[i]);
        OneFilePartly(before.files, old(fs.files), fs.history[i]);
      }
      surface.Set(c.knobID, c.before);
    }

    /** runTrial: from apply to verdict. */
    method RunTrial(ghost st: R.RunState, number: nat, c: Change) returns (t: Trial)
      requires Valid() && Shows(st) && number == |st.trials| + 1
      modifies surface`knobs, fs
      ensures Valid()
      ensures var r := R.RunTrial(opts, env, baseline, st, c);
              t == r.trial && surface.knobs == r.knobs && fs.files == r.disk
      ensures Through(old(fs.history), fs.history, R.TrialDisks(opts, env, baseline, st, c))
    {
      t := Trial(number, c.knobID, c.before, c.after, best, ZERO_SCORE, false, "", "", opts.dryRun);
      assert t == R.Opening(opts, st, c);
      if opts.dryRun {
        return;
      }
      var knob := surface.Find(c.knobID);
      if knob.None? {
        t := t.(error := "knob is not on the mutable surface: " + c.knobID);
        return;
      }
      var faults := env.faults(number - 1);
      var before := new Snap.SnapshotStore();
      var captured := before.Capture(fs, [knob.value.file], if faults.capture.Some? then {knob.value.file} else {});
      if !captured {
        assert faults.capture.Some?;
        t := t.(error := "capture: " + faults.capture.value);
        return;
      }
      assert faults.capture.None? by {
        assert knob.value.file in [knob.value.file];
      }
      var refused := surface.ApplyChange(fs, c, faults.write);
      if refused.Some? {
        t := t.(error := refused.value);
        return;
      }
      t := Settle(st, t, before, c);
      ThroughBoth(old(fs.history), old(fs.history) + [Apply(st.knobs, st.disk, c, faults.write).disk], fs.history,
                  R.TrialDisks(opts, env, baseline, st, c));
    }

    /** After the apply: evaluate, judge, and unless the change is kept put everything back. */
    method Settle(ghost st: R.RunState, t0: Trial, before: Snap.SnapshotStore, c: Change) returns (t: Trial)
      requires Valid() && before !in {this, surface, fs} && st.best == best
      requires t0 == R.Opening(opts, st, c) && !opts.dryRun
      requires Lookup(st.knobs, c.knobID).Some? && env.faults(|st.trials|).capture.None?
      requires before.files == Snap.CaptureAll(st.disk, [st.knobs[Lookup(st.knobs, c.knobID).value].file])
      requires Apply(st.knobs, st.disk, c, env.faults(|st.trials|).write) == Written(surface.knobs, fs.files)
      modifies surface`knobs, fs
      ensures Valid()
      ensures var r := R.RunTrial(opts, env, baseline, st, c);
              t == r.trial && surface.knobs == r.knobs && fs.files == r.disk
      ensures old(fs.files) in R.TrialDisks(opts, env, baseline, st, c)
      ensures Through(old(fs.history), fs.history, R.TrialDisks(opts, env, baseline, st, c))
    {
      AppliedDisks(opts, env, baseline, st, c);
      t := Judge(t0, env.evaluate(t0.number, fs.files));
      if !t.kept {
        var faults := env.faults(t0.number - 1);
        if faults.restore.Some? {
          t := t.(error := Trim(t.error + " | restore failed: " + faults.restore.value));
        } else {
          PutBack(before, c);
          ThroughMore(old(fs.history), fs.history, [old(fs.files), fs.files], R.TrialDisks(opts, env, baseline, st, c));
        }
      }
    }

    /** budgetStop. */
    method BudgetStop(done: nat, tokens: int, ghost st: R.RunState) returns (stop: Option<R.StopReason>)
      requires done == |st.trials| && tokens == st.tokens
      ensures stop == R.BudgetStop(opts, env, st)
    {
      if done >= opts.budget.maxExperiments {
        return Some(R.StopExperiments);
      }
      if env.clock(done) - env.started >= opts.budget.maxWallClock {
        return Some(R.StopWallClock);
      }
      if tokens >= opts.budget.maxTokens {
        return Some(R.StopTokens);
      }
      stop := None;
    }

    /** The head of the loop. */
    method Decide(trials: seq<Trial>, tokens: int, ghost st: R.RunState)
      returns (stop: Option<R.StopReason>, change: Change)
      requires Shows(st) && trials == st.trials && tokens == st.tokens
      ensures match R.Head(opts, env, st)
              case Halt(reason) => stop == Some(reason)
              case Try(c) => stop == None && change == c
    {
      change := Change("", "", "");
      stop := BudgetStop(|trials|, tokens, st);
      if stop.Some? {
        return;
      }
      if env.canceled(|trials|) {
        return Some(R.StopCanceled), change;
      }
      match env.propose(surface.knobs, trials) {
        case NoProposal => stop := Some(R.StopExhausted);
        case Canceled => stop := Some(R.StopCanceled);
        case Failed(_) => stop := Some(R.StopEvalFailed);
        case Propose(c) => change := c;
      }
    }

    /** One experiment: the trial, and the champion it may crown. */
    method Experiment(ghost layout: Layout, ghost start: R.RunState, ghost sts: seq<R.RunState>, ghost h0: seq<Files>,
                      number: nat, change: Change) returns (trial: Trial)
      requires Valid() && Frame.Placed(layout, start.knobs)
      requires R.Execution(opts, env, baseline, start, sts) && Shows(sts[|sts| - 1])
      requires number == |sts[|sts| - 1].trials| + 1
      requires StaysContained(layout, start, h0, fs.history)
      modifies this`best, surface`knobs, fs
      ensures Valid() && Shows(R.Advance(opts, env, baseline, sts[|sts| - 1], change))
      ensures trial == R.RunTrial(opts, env, baseline, sts[|sts| - 1], change).trial
      ensures StaysContained(layout, start, h0, fs.history)
      ensures opts.dryRun ==> fs.history == old(fs.history)
    {
      trial := RunTrial(sts[|sts| - 1], number, change);
      TrialStaysContained(opts, env, baseline, layout, start, sts, change, h0, old(fs.history), fs.history);
      if trial.kept {
        best := trial.score;
      }
    }

    /** The loop has come along sts, its variables hold what the last state holds, and if stop is
        set it ends there. */
    ghost predicate Along(start: R.RunState, sts: seq<R.RunState>, stop: Option<R.StopReason>,
                          trials: seq<Trial>, kept: seq<Change>, tokens: int)
      reads this, surface, fs
    {
      && Valid() && Reached(opts, env, baseline, start, sts, stop)
      && Shows(sts[|sts| - 1]) && Tallies(sts[|sts| - 1], trials, kept, tokens)
    }

    /** One pass of the loop: the head, and unless it halts an experiment and its bookkeeping. */
    method Pass(ghost layout: Layout, ghost start: R.RunState, ghost sts0: seq<R.RunState>, ghost h0: seq<Files>,
                trials0: seq<Trial>, kept0: seq<Change>, tokens0: int)
      returns (stop: Option<R.StopReason>, trials: seq<Trial>, kept: seq<Change>, tokens: int,
               ghost sts: seq<R.RunState>)
      requires Along(start, sts0, None, trials0, kept0, tokens0)
      requires Frame.Placed(layout, start.knobs) && StaysContained(layout, start, h0, fs.history)
      modifies this`best, surface`knobs, fs
      ensures Along(start, sts, stop, trials, kept, tokens)
      ensures StaysContained(layout, start, h0, fs.history) && (opts.dryRun ==> fs.history == old(fs.history))
      ensures stop.None? ==> |trials0| < |trials| <= opts.budget.maxExperiments
    {
      trials, kept, tokens, sts := trials0, kept0, tokens0, sts0;
      var change;
      stop, change := Decide(trials, tokens, sts[|sts| - 1]);
      if stop.Some? {
        ReachedHalt(opts, env, baseline, start, sts, stop.value);
        return;
      }
      var trial := Experiment(layout, start, sts, h0, |trials| + 1, change);
      sts := AlongNext(opts, env, baseline, start, sts, change, trials, kept, tokens, trial);
      trials := trials + [trial];
      tokens := tokens + trial.score.tokens;
      if trial.kept {
        kept := kept + [change];
      }
      if trial.error != "" {
        stop := Some(if env.canceledAfter(|trials|) then R.StopCanceled else R.StopEvalFailed);
      }
    }

    /** The loop of Run, from a baseline on. */
    method Iterate(ghost layout: Layout, ghost start: R.RunState) returns (res: Result)
      requires Valid() && Shows(start) && start == R.Start(fs.files, surface.knobs, baseline)
      requires Frame.Placed(layout, surface.knobs)
      modifies this`best, surface`knobs, fs
      ensures Valid() && surface.knobs == R.Loop(opts, env, baseline, start).state.knobs
      ensures fs.files == R.Loop(opts, env, baseline, start).state.disk
      ensures res == Summary(opts, baseline, R.Loop(opts, env, baseline, start))
      ensures StaysContained(layout, start, old(fs.history), fs.history)
      ensures opts.dryRun ==> fs.history == old(fs.history)
    {
      ghost var sts := [start];
      var trials: seq<Trial>, kept: seq<Change>, tokens := [], [], baseline.tokens;
      var stop: Option<R.StopReason> := None;
      while stop.None?
        invariant Along(start, sts, stop, trials, kept, tokens)
        invariant StaysContained(layout, start, old(fs.history), fs.history)
        invariant opts.dryRun ==> fs.history == old(fs.history)
        decreases stop.None?, opts.budget.maxExperiments - |trials|
      {
        stop, trials, kept, tokens, sts := Pass(layout, start, sts, old(fs.history), trials, kept, tokens);
      }
      // The source's fallback for a missing reason is dead code: stop is always set here.
      assert stop.Some?;
      res := Result(baseline, best, kept, trials, if opts.dryRun then R.StopDryRun else stop.value, |trials|, tokens,
                    opts.dryRun);
    }

    /** Lay down the durable snapshot. On an error, and in every state before the manifest is
        written, the project is as it was and any loadable snapshot is the earlier one. */
    method LaySnapshot(files: seq<Path>, plan: SnapshotPlan) returns (error: Option<string>)
      requires Valid() && Snap.AllProject(files) && plan.TakeSnapshot?
      modifies fs
      ensures Valid() && Snap.SameProject(fs.files, old(fs.files))
      ensures error.None? ==> Snap.Holds(fs.files, Snap.CaptureAll(fs.files, files)) && |fs.history| > |old(fs.history)|
      ensures old(fs.history) <= fs.history
      ensures forall i :: |old(fs.history)| <= i < |fs.history| - (if error.None? then 1 else 0) ==>
                HarmlessCrash(fs.history[i], old(fs.files))
    {
      var snap := new Snap.SnapshotStore();
      var ok := snap.Capture(fs, files, plan.unreadable);
      if !ok {
        return Some("snapshot");
      }
      if plan.mkdirError.Some? {
        snap.ClearSnapshot(fs);
        return Some("persist snapshot: " + plan.mkdirError.value);
      }
      ok := snap.Persist(fs, plan.failAt);
      if !ok {
        return Some("persist snapshot: write");
      }
      CaptureSame(old(fs.files), fs.files, files);
      error := None;
    }

    /** The baseline evaluation, which a dry run skips. */
    method Measure() returns (base: Option<Score>, failure: RunEnd)
      ensures base == BaselineOf(opts, env, fs.files)
      ensures base.None? ==> !opts.dryRun && failure == Unmeasured(env.evaluate(0, fs.files))
    {
      base, failure := Some(UnknownScore()), NoBaseline("");
      if !opts.dryRun {
        match env.evaluate(0, fs.files) {
          case Panicked(m) => base, failure := None, Crashed(m);
          case EvalError(e) => base, failure := None, NoBaseline("baseline evaluation: " + e);
          case Scored(score) => base := Some(score);
        }
      }
    }

    /** Run. start is the state the loop began in and saved the number of disk states up to
        and including the finished snapshot. */
    method Run(ghost layout: Layout, plan: SnapshotPlan)
      returns (end: RunEnd, ghost start: R.RunState, ghost saved: nat)
      requires Valid() && Frame.Placed(layout, surface.knobs)
      requires Project("") !in FileSet(surface.knobs)
      modifies this, surface`knobs, fs
      ensures Valid()
      ensures old(surface.knobs) == [] ==>
                && end == Finished(Result(ZERO_SCORE, ZERO_SCORE, [], [], R.StopNoSurface, 0, 0, opts.dryRun))
                && fs.history == old(fs.history)
      ensures !end.Finished? ==> Snap.SameProject(fs.files, old(fs.files)) && surface.knobs == old(surface.knobs)
      ensures end.Crashed? ==> !opts.dryRun && env.evaluate(0, fs.files) == R.Panicked(end.message)
      ensures end.Finished? && old(surface.knobs) != [] ==>
                && BaselineOf(opts, env, start.disk) == Some(baseline)
                && start == R.Start(start.disk, old(surface.knobs), baseline)
                && Snap.SameProject(start.disk, old(fs.files))
                && var f := R.Loop(opts, env, baseline, start);
                   && end.result == Summary(opts, baseline, f)
                   && fs.files == f.state.disk && surface.knobs == f.state.knobs
      ensures opts.dryRun ==> fs.history == old(fs.history)
      ensures SnapshotProtects(opts, plan, old(fs.history), saved, start.disk, fs.history) || old(surface.knobs) == []
    {
      start := R.Start(fs.files, surface.knobs, UnknownScore());
      saved := |fs.history| + 1;
      var files := surface.FileList();
      if |surface.knobs| == 0 {
        return Finished(Result(ZERO_SCORE, ZERO_SCORE, [], [], R.StopNoSurface, 0, 0, opts.dryRun)), start, saved;
      }
      ListedFiles(surface.knobs, files);
      var error := Secure(files, plan);
      saved := |fs.history| + if error.Some? then 1 else 0;
      start := R.Start(fs.files, surface.knobs, UnknownScore());
      if error.Some? {
        return NoBaseline(error.value), start, saved;
      }
      ghost var h := fs.history;
      end, start := Proceed(layout);
      Protects(opts, plan, layout, start, files, old(fs.history), h, fs.history);
    }

    /** From the baseline on. */
    method Proceed(ghost layout: Layout) returns (end: RunEnd, ghost start: R.RunState)
      requires Valid() && Frame.Placed(layout, surface.knobs)
      modifies this, surface`knobs, fs
      ensures Valid() && start.disk == old(fs.files) && start.knobs == old(surface.knobs)
      ensures fs.history == old(fs.history) || StaysContained(layout, start, old(fs.history), fs.history)
      ensures !end.Finished? ==> fs.history == old(fs.history) && fs.files == old(fs.files)
      ensures !end.Finished? ==> surface.knobs == old(surface.knobs)
      ensures end.Crashed? ==> !opts.dryRun && env.evaluate(0, fs.files) == R.Panicked(end.message)
      ensures end.Finished? ==>
                && BaselineOf(opts, env, start.disk) == Some(baseline)
                && start == R.Start(start.disk, start.knobs, baseline)
                && var f := R.Loop(opts, env, baseline, start);
                   && end.result == Summary(opts, baseline, f)
                   && fs.files == f.state.disk && surface.knobs == f.state.knobs
      ensures opts.dryRun ==> fs.history == old(fs.history)
    {
      start := R.Start(fs.files, surface.knobs, UnknownScore());
      var base, failure := Measure();
      if base.None? {
        return failure, start;
      }
      baseline, best := base.value, base.value;
      start := R.Start(fs.files, surface.knobs, baseline);
      var res := Iterate(layout, start);
      end := Finished(res);
    }

    /** The durable snapshot, if this run takes one. */
    method Secure(files: seq<Path>, plan: SnapshotPlan) returns (error: Option<string>)
      requires Valid() && Snap.AllProject(files)
      modifies fs
      ensures Valid() && Snap.SameProject(fs.files, old(fs.files))
      ensures error.None? ==> Secured(opts, plan, files, old(fs.history), fs.history)
      ensures error.Some? ==> SnapshotProtects(opts, plan, old(fs.history), |fs.history| + 1, fs.files, fs.history)
      ensures opts.dryRun ==> error.None? && fs.history == old(fs.history)
    {
      error := None;
      if !opts.dryRun && plan.TakeSnapshot? {
        error := LaySnapshot(files, plan);
      }
    }
  }

  /** The baseline of a run: nothing is measured in a dry one. */
  function BaselineOf(opts: R.Options, env: R.Env, disk: Files): Option<Score> {
    if opts.dryRun then Some(UnknownScore())
    else match env.evaluate(0, disk)
      case Scored(s) => Some(s)
      case _ => None
  }

  /** A crash in this state costs nothing: project untouched, no half snapshot to load. */
  ghost predicate HarmlessCrash(d: Files, before: Files) {
    Snap.SameProject(d, before) && Snap.CrashSafe(d, before)
  }

  /** What the durable snapshot is for: every state before it is complete is harmless, and
      from every state after it, to the end of the run, the pre-run disk can be recovered. */
  ghost predicate SnapshotProtects(opts: R.Options, plan: SnapshotPlan, h0: seq<Files>, saved: nat,
                                   target: Files, h: seq<Files>)
    requires h0 != []
  {
    !opts.dryRun && plan.TakeSnapshot? ==>
      && h0 <= h && |h0| < saved && Snap.SameProject(target, h0[|h0| - 1])
      && (forall i :: |h0| <= i < |h| && i < saved - 1 ==> HarmlessCrash(h[i], h0[|h0| - 1]))
      && (forall i :: |h0| <= i < |h| && i >= saved - 1 ==> Snap.Recovers(h[i], target))
  }

  lemma ListedFiles(knobs: seq<Knob>, files: seq<Path>)
    requires forall k :: k in knobs ==> k.file.Project?
    requires Project("") !in FileSet(knobs) && forall p :: p in files <==> p in FileSet(knobs) && p != Project("")
    ensures Frame.Lists(files, knobs) && Snap.AllProject(files)
  {
  }

  /** The disk when the run proper begins: with a finished snapshot, if one is taken. */
  ghost predicate Secured(opts: R.Options, plan: SnapshotPlan, files: seq<Path>, h0: seq<Files>, h: seq<Files>)
    requires h0 != []
  {
    && h0 <= h && Snap.SameProject(h[|h| - 1], h0[|h0| - 1])
    && (!opts.dryRun && plan.TakeSnapshot? ==>
          && |h0| < |h| && Snap.Holds(h[|h| - 1], Snap.CaptureAll(h[|h| - 1], files))
          && forall i :: |h0| <= i < |h| - 1 ==> HarmlessCrash(h[i], h0[|h0| - 1]))
  }

  lemma Protects(opts: R.Options, plan: SnapshotPlan, layout: Layout, start: R.RunState, files: seq<Path>,
                 h0: seq<Files>, h: seq<Files>, h': seq<Files>)
    requires h0 != [] && Secured(opts, plan, files, h0, h) && h[|h| - 1] == start.disk
    requires h == h' || StaysContained(layout, start, h, h')
    requires Frame.Placed(layout, start.knobs) && Frame.Lists(files, start.knobs)
    ensures SnapshotProtects(opts, plan, h0, |h|, start.disk, h')
  {
    if !opts.dryRun && plan.TakeSnapshot? {
      Frame.StartContained(layout, start.knobs, start.disk);
      forall i | |h| - 1 <= i < |h'| ensures Snap.Recovers(h'[i], start.disk) {
        Frame.ContainedRecovers(layout, start, files, h'[i]);
      }
      forall i | |h0| <= i < |h| - 1 ensures HarmlessCrash(h'[i], h0[|h0| - 1]) {
        assert h'[i] == h[i];
      }
    }
  }

  /** LoadSnapshot on the disk itself: an unparseable manifest is moved aside. */
  method Load(fs: FileSystem, renames: bool) returns (snap: Option<seq<Snap.FileState>>)
    requires fs.Valid()
    modifies fs
    ensures fs.Valid() && snap == Snap.LoadSnapshot(old(fs.files)) && fs.files == Snap.SetAside(old(fs.files), renames)
    ensures snap.Some? ==> fs.files == old(fs.files)
  {
    snap := Snap.LoadSnapshot(fs.files);
    if Manifest in fs.files && !fs.files[Manifest].Records? && renames {
      var text := fs.files[Manifest];
      fs.Remove(Manifest);
      fs.Write(CorruptManifest, text);
    }
  }

  /** RestoreLast: load the durable snapshot and put every file back; stuck names the files that
      resist. Without a loadable snapshot no project file changes. */
  method RestoreLast(fs: FileSystem, stuck: set<Path>, renames: bool) returns (restored: Option<seq<Path>>)
    requires fs.Valid()
    modifies fs
    ensures fs.Valid() && (restored.Some? ==> Snap.LoadSnapshot(old(fs.files)).Some?)
    ensures var snap := Snap.LoadSnapshot(old(fs.files));
            fs.files == if snap.None? then Snap.SetAside(old(fs.files), renames)
                        else Snap.RestoreAll(Snap.Freed(snap.value, stuck), old(fs.files))
    ensures forall target :: Snap.Recovers(old(fs.files), target) && stuck == {} ==> fs.files == target
    ensures restored.Some? ==> forall f :: f in Snap.LoadSnapshot(old(fs.files)).value ==> f.path !in stuck
  {
    var snap := Load(fs, renames);
    if snap.None? {
      return None;
    }
    var store := new Snap.SnapshotStore();
    store.files := snap.value;
    if stuck == {} {
      Snap.FreedAll(snap.value, stuck);
    }
    var failed := store.Restore(fs, stuck);
    if failed != [] {
      return None;
    }
    restored := Some(seq(|snap.value|, i requires 0 <= i < |snap.value| => snap.value[i].path));
  }

  lemma OneFilePartly(fs: seq<Snap.FileState>, before: Files, d: Files)
    requires |fs| == 1 && Snap.PartlyRestored(fs, before, d)
    ensures d == before || d == Snap.RestoreAll(fs, before)
  {
    var j :| 0 <= j <= |fs| && d == Snap.RestoreAll(fs[..j], before);
    assert j == 1 ==> fs[..j] == fs;
  }

  lemma CaptureSame(a: Files, b: Files, paths: seq<Path>)
    requires Snap.SameProject(a, b) && Snap.AllProject(paths)
    ensures Snap.CaptureAll(a, paths) == Snap.CaptureAll(b, paths)
  {
    forall i | 0 <= i < |paths| ensures Snap.CaptureFile(a, paths[i]) == Snap.CaptureFile(b, paths[i]) {
      assert Snap.SameAt(a, b, paths[i]);
    }
  }

  lemma ExecutionSnoc(opts: R.Options, env: R.Env, base: Score, start: R.RunState, sts: seq<R.RunState>,
                      next: R.RunState)
    requires R.Execution(opts, env, base, start, sts) && R.Step(opts, env, base, sts[|sts| - 1], next)
    ensures R.Execution(opts, env, base, start, sts + [next])
  {
  }
}
