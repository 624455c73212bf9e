/** pkg/autoresearch/ratchet.go as a transition system: one run is a function of the
    starting files, the reflected surface and an arbitrary environment. */
module Ratchet {
  import opened Text
  import opened Disk
  import opened Surface
  import opened Guards
  import opened Trials
  import opened Propose
  import Snap = Snapshot

  datatype Budget = Budget(maxExperiments: int, maxWallClock: int, maxTokens: int)

  /** Zero fields take the defaults: a dozen experiments, half an hour, two million tokens. */
  function WithDefaults(b: Budget): Budget {
    Budget(if b.maxExperiments == 0 then 12 else b.maxExperiments,
           if b.maxWallClock == 0 then 1_800_000_000_000 else b.maxWallClock,
           if b.maxTokens == 0 then 2_000_000 else b.maxTokens)
  }

  datatype StopReason =
    | StopExperiments | StopWallClock | StopTokens | StopExhausted
    | StopCanceled | StopEvalFailed | StopDryRun | StopNoSurface

  datatype Options = Options(budget: Budget, guards: seq<Guard>, minImprovement: real, dryRun: bool)

  datatype Outcome = Scored(score: Score) | EvalError(error: string) | Panicked(message: string)

  /** I/O trouble that may strike one trial. */
  datatype Faults = Faults(capture: Option<string>, write: Option<string>, restore: Option<string>)

  /** Everything outside the loop, arbitrary but fixed: any proposer (the history it sees
      grows with each call, so a stateful one is covered), any evaluator (call 0 is the
      baseline), the clock, the context and the disk faults, indexed by finished trials. */
  datatype Env = Env(
    propose: (seq<Knob>, seq<Trial>) -> Proposal,
    evaluate: (nat, Files) -> Outcome,
    started: int,
    clock: nat -> int,
    canceled: nat -> bool,
    canceledAfter: nat -> bool,
    faults: nat -> Faults)

  datatype RunState = RunState(disk: Files, knobs: seq<Knob>, best: Score, trials: seq<Trial>,
                               kept: seq<Change>, tokens: int)

  // ---- one trial -----------------------------------------------------------

  datatype TrialResult = TrialResult(trial: Trial, knobs: seq<Knob>, disk: Files)

  function Opening(opts: Options, st: RunState, c: Change): Trial {
    Trial(|st.trials| + 1, c.knobID, c.before, c.after, st.best, ZERO_SCORE, false, "", "", opts.dryRun)
  }

  /** The keep rule, in the order it is applied. */
  function Verdict(opts: Options, base: Score, t: Trial, outcome: Outcome): Trial {
    match outcome
    case EvalError(e) => t.(error := e)
    case Panicked(m) => t.(error := "evaluation panicked: " + m)
    case Scored(s) =>
      var t := t.(score := s);
      if s.primary - t.baseline.primary <= opts.minImprovement then t
      else
        var champion := CheckGuards(t.baseline, s, opts.guards);
        if champion.Some? then t.(guard := champion.value)
        else
          var drift := CheckGuards(base, s, opts.guards);
          if drift.Some? then t.(guard := drift.value) else t.(kept := true)
  }

  /** From apply to verdict: unless the trial is kept, the captured file goes back. */
  function RunTrial(opts: Options, env: Env, base: Score, st: RunState, c: Change): TrialResult {
    var t := Opening(opts, st, c);
    var faults := env.faults(|st.trials|);
    if opts.dryRun then TrialResult(t, st.knobs, st.disk)
    else
      var at := Lookup(st.knobs, c.knobID);
      if at.None? then TrialResult(t.(error := "knob is not on the mutable surface: " + c.knobID), st.knobs, st.disk)
      else if faults.capture.Some? then
        TrialResult(t.(error := "capture: " + faults.capture.value), st.knobs, st.disk)
      else
        var before := Snap.CaptureAll(st.disk, [st.knobs[at.value].file]);
        match Apply(st.knobs, st.disk, c, faults.write)
        case Refused(e) => TrialResult(t.(error := e), st.knobs, st.disk)
        case Written(knobs, disk) =>
          var v := Verdict(opts, base, t, env.evaluate(|st.trials| + 1, disk));
          if v.kept then TrialResult(v, knobs, disk)
          else if faults.restore.Some? then
            TrialResult(v.(error := Trim(v.error + " | restore failed: " + faults.restore.value)), knobs, disk)
          else TrialResult(v, SetValue(knobs, c.knobID, c.before), Snap.RestoreAll(before, disk))
  }

  /** A trial touches nothing, leaves its change in place, or takes it back. */
  datatype Effect = Untouched | Stays | Reverts

  function TrialEffect(opts: Options, env: Env, base: Score, st: RunState, c: Change): Effect {
    var faults := env.faults(|st.trials|);
    if opts.dryRun || Lookup(st.knobs, c.knobID).None? || faults.capture.Some?
       || Apply(st.knobs, st.disk, c, faults.write).Refused? then Untouched
    else if RunTrial(opts, env, base, st, c).trial.kept || faults.restore.Some? then Stays
    else Reverts
  }

  lemma TrialCases(opts: Options, env: Env, base: Score, st: RunState, c: Change)
    returns (effect: Effect, applied: ApplyResult)
    ensures effect == TrialEffect(opts, env, base, st, c)
    ensures applied == Apply(st.knobs, st.disk, c, env.faults(|st.trials|).write)
    ensures effect != Untouched ==> applied.Written? && !opts.dryRun && Lookup(st.knobs, c.knobID).Some?
    ensures var r := RunTrial(opts, env, base, st, c);
            match effect
            case Untouched => r.knobs == st.knobs && r.disk == st.disk && !r.trial.kept
            case Stays => r.knobs == applied.knobs && r.disk == applied.disk
                          && (r.trial.kept || env.faults(|st.trials|).restore.Some?)
            case Reverts =>
              && !r.trial.kept && env.faults(|st.trials|).restore.None?
              && r.knobs == SetValue(applied.knobs, c.knobID, c.before)
              && r.disk == Snap.RestoreAll(
                             Snap.CaptureAll(st.disk, [st.knobs[Lookup(st.knobs, c.knobID).value].file]), applied.disk)
  {
    effect := TrialEffect(opts, env, base, st, c);
    applied := Apply(st.knobs, st.disk, c, env.faults(|st.trials|).write);
  }

  /** The record of a trial: the opening with an error, or the evaluator's verdict, whose
      error a failed restore extends. */
  lemma TrialRecord(opts: Options, env: Env, base: Score, st: RunState, c: Change)
    ensures var t := RunTrial(opts, env, base, st, c).trial;
            match TrialEffect(opts, env, base, st, c)
            case Untouched => t == Opening(opts, st, c).(error := t.error)
            case _ =>
              var disk := Apply(st.knobs, st.disk, c, env.faults(|st.trials|).write).disk;
              var v := Verdict(opts, base, Opening(opts, st, c), env.evaluate(|st.trials| + 1, disk));
              !opts.dryRun && t == v.(error := t.error) && (v.kept ==> t == v)
  {
  }

  /** Every disk state one trial passes through. */
  function TrialDisks(opts: Options, env: Env, base: Score, st: RunState, c: Change): seq<Files> {
    var at := Lookup(st.knobs, c.knobID);
    var faults := env.faults(|st.trials|);
    if opts.dryRun || at.None? || faults.capture.Some? then []
    else match Apply(st.knobs, st.disk, c, faults.write)
      case Refused(_) => []
      case Written(_, disk) =>
        var r := RunTrial(opts, env, base, st, c);
        if r.disk == disk then [disk] else [disk, r.disk]
  }

  lemma TrialDiskCases(opts: Options, env: Env, base: Score, st: RunState, c: Change, d: Files)
    requires d in TrialDisks(opts, env, base, st, c)
    ensures TrialEffect(opts, env, base, st, c) != Untouched
    ensures d == RunTrial(opts, env, base, st, c).disk
         || (Apply(st.knobs, st.disk, c, env.faults(|st.trials|).write).Written?
             && d == Apply(st.knobs, st.disk, c, env.faults(|st.trials|).write).disk)
  {
    var _, _ := TrialCases(opts, env, base, st, c);
  }

  // ---- the loop ------------------------------------------------------------

  /** The first cap that binds, checked before each experiment. */
  function BudgetStop(opts: Options, env: Env, st: RunState): Option<StopReason> {
    if |st.trials| >= opts.budget.maxExperiments then Some(StopExperiments)
    else if env.clock(|st.trials|) - env.started >= opts.budget.maxWallClock then Some(StopWallClock)
    else if st.tokens >= opts.budget.maxTokens then Some(StopTokens)
    else None
  }

  datatype Decision = Halt(reason: StopReason) | Try(change: Change)

  /** The head of the loop: budget, then context, then the proposer. */
  function Head(opts: Options, env: Env, st: RunState): Decision {
    var stop := BudgetStop(opts, env, st);
    if stop.Some? then Halt(stop.value)
    else if env.canceled(|st.trials|) then Halt(StopCanceled)
    else match env.propose(st.knobs, st.trials)
      case NoProposal => Halt(StopExhausted)
      case Canceled => Halt(StopCanceled)
      case Failed(_) => Halt(StopEvalFailed)
      case Propose(c) => Try(c)
  }

  /** Trial and bookkeeping. */
  function Advance(opts: Options, env: Env, base: Score, st: RunState, c: Change): RunState {
    var r := RunTrial(opts, env, base, st, c);
    RunState(r.disk, r.knobs, if r.trial.kept then r.trial.score else st.best, st.trials + [r.trial],
             if r.trial.kept then st.kept + [c] else st.kept, st.tokens + r.trial.score.tokens)
  }

  function LastError(st: RunState): string {
    if st.trials == [] then "" else st.trials[|st.trials| - 1].error
  }

  datatype Finish = Finish(state: RunState, reason: StopReason)

  /** What ends the loop after a trial that carried an error. */
  function ErrorStop(env: Env, st: RunState): StopReason {
    if env.canceledAfter(|st.trials|) then StopCanceled else StopEvalFailed
  }

  function Loop(opts: Options, env: Env, base: Score, st: RunState): Finish
    decreases opts.budget.maxExperiments - |st.trials|
  {
    match Head(opts, env, st)
    case Halt(reason) => Finish(st, reason)
    case Try(c) =>
      var st' := Advance(opts, env, base, st, c);
      if LastError(st') != "" then Finish(st', ErrorStop(env, st')) else Loop(opts, env, base, st')
  }

  /** The reason a finished run reports. */
  function ReportedReason(opts: Options, f: Finish): StopReason {
    if opts.dryRun then StopDryRun else f.reason
  }

  function Start(disk: Files, knobs: seq<Knob>, base: Score): RunState {
    RunState(disk, knobs, base, [], [], base.tokens)
  }

  // ---- executions ----------------------------------------------------------

  /** One pass of the loop body leads from a to b. */
  ghost predicate Step(opts: Options, env: Env, base: Score, a: RunState, b: RunState) {
    && LastError(a) == ""
    && Head(opts, env, a).Try?
    && b == Advance(opts, env, base, a, Head(opts, env, a).change)
  }

  /** The states at the loop head, from the start of a run on. */
  ghost predicate Execution(opts: Options, env: Env, base: Score, start: RunState, sts: seq<RunState>) {
    && sts != [] && sts[0] == start
    && forall i :: 0 < i < |sts| ==> Step(opts, env, base, sts[i - 1], sts[i])
  }

  lemma ExecutionCons(opts: Options, env: Env, base: Score, a: RunState, b: RunState, rest: seq<RunState>)
    requires Step(opts, env, base, a, b) && Execution(opts, env, base, b, rest)
    ensures Execution(opts, env, base, a, [a] + rest)
  {
    var sts := [a] + rest;
    forall i | 0 < i < |sts| ensures Step(opts, env, base, sts[i - 1], sts[i]) {
      if i > 1 {
        assert Step(opts, env, base, rest[i - 2], rest[i - 1]);
      }
    }
  }

  /** The loop's result is the last state of an execution, and its reason is decided there. */
  lemma {:induction false} LoopExecutes(opts: Options, env: Env, base: Score, st: RunState)
    returns (sts: seq<RunState>)
    requires LastError(st) == ""
    ensures Execution(opts, env, base, st, sts)
    ensures var f := Loop(opts, env, base, st);
            && sts[|sts| - 1] == f.state
            && (if LastError(f.state) != "" then f.reason == ErrorStop(env, f.state)
                else Head(opts, env, f.state) == Halt(f.reason))
    decreases opts.budget.maxExperiments - |st.trials|
  {
    match Head(opts, env, st) {
      case Halt(reason) => sts := [st];
      case Try(c) =>
        var st' := Advance(opts, env, base, st, c);
        if LastError(st') != "" {
          sts := [st, st'];
        } else {
          var rest := LoopExecutes(opts, env, base, st');
          ExecutionCons(opts, env, base, st, st', rest);
          sts := [st] + rest;
        }
    }
  }

  lemma ExecutionTake(opts: Options, env: Env, base: Score, start: RunState, sts: seq<RunState>, n: nat)
    requires Execution(opts, env, base, start, sts) && 0 < n <= |sts|
    ensures Execution(opts, env, base, start, sts[..n])
  {
  }

  /** Prefixes of executions are executions. */
  lemma ExecutionPrefix(opts: Options, env: Env, base: Score, start: RunState, sts: seq<RunState>)
    requires Execution(opts, env, base, start, sts) && |sts| > 1
    ensures Execution(opts, env, base, start, sts[..|sts| - 1])
    ensures Step(opts, env, base, sts[|sts| - 2], sts[|sts| - 1])
  {
  }
}
