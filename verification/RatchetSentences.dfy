/** Where StopReason.Sentence promises more than the loop keeps, and exactly when it is right. */
module RatchetSentences {
  import opened Text
  import opened Disk
  import opened Surface
  import opened Guards
  import opened Trials
  import opened Propose
  import opened Ratchet
  import opened RatchetRestore
  import opened RatchetSweep
  import opened RatchetRuns
  import opened RatchetDry
  import Books = RatchetBooks

  // ---- "canceled - the surface was restored to its pre-run state" ----------

  /** The value the last kept change gave a knob. */
  function LastKept(kept: seq<Change>, id: string): Option<string> {
    if kept == [] then None
    else if kept[|kept| - 1].knobID == id then Some(kept[|kept| - 1].after)
    else LastKept(kept[..|kept| - 1], id)
  }

  /** What knob i shows once the kept changes have been made: they reach the last knob of an id. */
  function NetValue(start: seq<Knob>, i: nat, kept: seq<Change>): string
    requires i < |start|
  {
    var k := start[i];
    if Lookup(start, k.id) != Some(i) then k.value
    else match LastKept(kept, k.id)
      case None => k.value
      case Some(v) => k.domain.Normalize(v)
  }

  /** The surface in memory is the start with each knob at its last kept value. */
  ghost predicate Netted(start: seq<Knob>, knobs: seq<Knob>, kept: seq<Change>) {
    SameShape(start, knobs) && forall i :: 0 <= i < |knobs| ==> knobs[i].value == NetValue(start, i, kept)
  }

  lemma ShapeLookup(a: seq<Knob>, b: seq<Knob>, id: string)
    requires SameShape(a, b)
    ensures Lookup(a, id) == Lookup(b, id)
  {
    forall j | 0 <= j < |a| ensures a[j].id == b[j].id {
      SameKnob(a, b, j);
    }
    var i := Lookup(a, id);
    if i.Some? {
      LookupUnique(b, id, i.value);
    }
  }

  lemma LastKeptSnoc(kept: seq<Change>, c: Change, id: string)
    ensures LastKept(kept + [c], id) == if c.knobID == id then Some(c.after) else LastKept(kept, id)
  {
    assert (kept + [c])[..|kept|] == kept && (kept + [c])[|kept|] == c;
  }

  lemma KeptSnoc(start: seq<Knob>, i: nat, kept: seq<Change>, c: Change)
    requires i < |start|
    ensures NetValue(start, i, kept + [c])
         == if Lookup(start, c.knobID) == Some(i) then start[i].domain.Normalize(c.after) else NetValue(start, i, kept)
  {
    LastKeptSnoc(kept, c, start[i].id);
  }

  lemma AppliedNets(start: seq<Knob>, knobs: seq<Knob>, disk: Files, kept: seq<Change>, c: Change)
    requires Netted(start, knobs, kept) && Apply(knobs, disk, c, None).Written?
    ensures Netted(start, Apply(knobs, disk, c, None).knobs, kept + [c])
  {
    var at := Lookup(knobs, c.knobID).value;
    ApplyUpdates(knobs, disk, c, None, at);
    UpdateNets(start, knobs, kept, c, at);
  }

  lemma UpdateNets(start: seq<Knob>, knobs: seq<Knob>, kept: seq<Change>, c: Change, at: nat)
    requires Netted(start, knobs, kept) && Lookup(knobs, c.knobID) == Some(at)
    ensures Netted(start, AppliedKnobs(knobs, at, c), kept + [c])
  {
    var after := AppliedKnobs(knobs, at, c);
    ShapeLookup(start, knobs, c.knobID);
    forall i | 0 <= i < |after|
      ensures Fixed(after[i]) == Fixed(start[i]) && after[i].value == NetValue(start, i, kept + [c])
    {
      KeptSnoc(start, i, kept, c);
      SameKnob(start, knobs, i);
    }
  }

  lemma SameViewNets(start: seq<Knob>, a: seq<Knob>, b: seq<Knob>, kept: seq<Change>)
    requires Netted(start, b, kept) && SameView(a, b)
    ensures Netted(start, a, kept)
  {
    forall i | 0 <= i < |a| ensures Fixed(a[i]) == Fixed(b[i]) && a[i].value == b[i].value {
      ViewAt(a, b, i);
      assert Forget(a[i]) == Forget(b[i]);
      assert Fixed(a[i]) == Fixed(Forget(a[i])) && Fixed(b[i]) == Fixed(Forget(b[i]));
    }
  }

  lemma RevertedView(opts: Options, env: Env, base: Score, st: RunState, c: Change)
    requires !RunTrial(opts, env, base, st, c).trial.kept
    requires env.faults(|st.trials|).restore.None? || RunTrial(opts, env, base, st, c).trial.error == ""
    requires Lookup(st.knobs, c.knobID).Some? ==> c.before == CurrentValue(st.knobs, c.knobID)
    ensures SameView(RunTrial(opts, env, base, st, c).knobs, st.knobs)
  {
    var effect, applied := TrialCases(opts, env, base, st, c);
    match effect {
      case Untouched =>
      case Stays => FailedRestoreShows(opts, env, base, st, c);
      case Reverts =>
        RevertValues(st.knobs, st.disk, c, env.faults(|st.trials|).write);
        ViewOfValues(RunTrial(opts, env, base, st, c).knobs, st.knobs);
    }
  }

  lemma AdvanceNets(opts: Options, env: Env, base: Score, start: seq<Knob>, st: RunState, c: Change)
    requires Netted(start, st.knobs, st.kept)
    requires env.faults(|st.trials|).restore.None? || RunTrial(opts, env, base, st, c).trial.error == ""
    requires Lookup(st.knobs, c.knobID).Some? ==> c.before == CurrentValue(st.knobs, c.knobID)
    ensures var b := Advance(opts, env, base, st, c); Netted(start, b.knobs, b.kept)
  {
    if RunTrial(opts, env, base, st, c).trial.kept {
      KeptTrialApplies(opts, env, base, st, c);
      AppliedNets(start, st.knobs, st.disk, st.kept, c);
    } else {
      RevertedView(opts, env, base, st, c);
      SameViewNets(start, RunTrial(opts, env, base, st, c).knobs, st.knobs, st.kept);
    }
  }

  /** In every state of every run with honest proposals in which no restore failed, each knob shows
      its last kept value, or its starting value if nothing of it was kept. A failed restore shows
      as an error on the last trial. */
  lemma {:induction false} SurfaceIsNetOfKept(opts: Options, env: Env, base: Score, start: RunState, sts: seq<RunState>)
    requires Execution(opts, env, base, start, sts) && start.kept == []
    requires RestoresWork(env) || LastError(sts[|sts| - 1]) == ""
    requires forall i :: 0 <= i < |sts| - 1 ==> HonestAt(opts, env, sts[i])
    ensures Netted(start.knobs, sts[|sts| - 1].knobs, sts[|sts| - 1].kept)
  {
    if |sts| > 1 {
      var a := sts[|sts| - 2];
      ExecutionPrefix(opts, env, base, start, sts);
      SurfaceIsNetOfKept(opts, env, base, start, sts[..|sts| - 1]);
      assert HonestAt(opts, env, a);
      AdvanceNets(opts, env, base, start.knobs, a, Head(opts, env, a).change);
    }
  }

  /** No kept change, taken last for its knob, moved it away from where it started. */
  ghost predicate NetsOut(start: seq<Knob>, kept: seq<Change>) {
    forall i :: 0 <= i < |start| ==> NetValue(start, i, kept) == start[i].value
  }

  /** A run leaves the surface in its pre-run state if and only if its kept changes net out.
      Cancellation makes no difference: nothing kept is ever taken back. */
  lemma RestoredIffNetsOut(opts: Options, env: Env, base: Score, start: RunState, sts: seq<RunState>)
    requires Execution(opts, env, base, start, sts) && start.kept == []
    requires RestoresWork(env) || LastError(sts[|sts| - 1]) == ""
    requires forall i :: 0 <= i < |sts| - 1 ==> HonestAt(opts, env, sts[i])
    ensures SameView(sts[|sts| - 1].knobs, start.knobs) <==> NetsOut(start.knobs, sts[|sts| - 1].kept)
  {
    SurfaceIsNetOfKept(opts, env, base, start, sts);
    ViewIffNets(start.knobs, sts[|sts| - 1].knobs, sts[|sts| - 1].kept);
  }

  lemma ViewIffNets(start: seq<Knob>, knobs: seq<Knob>, kept: seq<Change>)
    requires Netted(start, knobs, kept)
    ensures SameView(knobs, start) <==> NetsOut(start, kept)
  {
    if SameView(knobs, start) {
      forall i | 0 <= i < |start| ensures NetValue(start, i, kept) == start[i].value {
        ViewAt(knobs, start, i);
      }
    }
    if NetsOut(start, kept) {
      forall i | 0 <= i < |knobs| ensures Forget(knobs[i]) == Forget(start[i]) {
        FixedAndValue(knobs[i], start[i]);
      }
    }
  }

  lemma FixedAndValue(a: Knob, b: Knob)
    requires Fixed(a) == Fixed(b) && a.value == b.value
    ensures Forget(a) == Forget(b)
  {
    assert Forget(a) == Fixed(a).(value := a.value) && Forget(b) == Fixed(b).(value := b.value);
  }

  /** Every metric unknown but the primary. */
  function PrimaryOnly(primary: real): Score { UnknownScore().(primary := primary) }

  /** An evaluator that likes the first change, and a user who cancels after it. */
  function CancelAfterFirst(c: Change): Env {
    Env((_, _) => Proposal.Propose(c), (n, _) => Scored(PrimaryOnly(n as real)), 0, _ => 0,
        n => n > 0, n => n > 0, _ => Faults(None, None, None))
  }

  function DefaultOptions(): Options {
    Options(WithDefaults(Budget(0, 0, 0)), DefaultGuards(), 0.0, false)
  }

  lemma UnknownPasses(a: real, b: real)
    ensures Passes(DefaultGuards(), PrimaryOnly(a), PrimaryOnly(b))
  {
    var guards := DefaultGuards();
    forall i | 0 <= i < |guards| ensures !Breached(guards[i], PrimaryOnly(a), PrimaryOnly(b)) {
    }
  }

  lemma FirstIsKept(start: RunState, c: Change)
    requires start.trials == [] && start.best == PrimaryOnly(0.0) && Apply(start.knobs, start.disk, c, None).Written?
    ensures var r := RunTrial(DefaultOptions(), CancelAfterFirst(c), PrimaryOnly(0.0), start, c);
            && r.trial.kept && r.trial.error == "" && r.trial.score == PrimaryOnly(1.0)
            && r.disk == Apply(start.knobs, start.disk, c, None).disk
  {
    var t := Opening(DefaultOptions(), start, c);
    BetterIsKept(t);
    RunKept(DefaultOptions(), CancelAfterFirst(c), PrimaryOnly(0.0), start, c, PrimaryOnly(1.0));
  }

  /** A change that applies, is scored and passes the keep rule is a kept trial. */
  lemma RunKept(opts: Options, env: Env, base: Score, st: RunState, c: Change, s: Score)
    requires !opts.dryRun && env.faults(|st.trials|) == Faults(None, None, None)
    requires Apply(st.knobs, st.disk, c, None).Written?
    requires env.evaluate(|st.trials| + 1, Apply(st.knobs, st.disk, c, None).disk) == Scored(s)
    requires Verdict(opts, base, Opening(opts, st, c), Scored(s)).kept
    ensures RunTrial(opts, env, base, st, c).trial == Verdict(opts, base, Opening(opts, st, c), Scored(s))
    ensures RunTrial(opts, env, base, st, c).disk == Apply(st.knobs, st.disk, c, None).disk
  {
  }

  lemma BetterIsKept(t: Trial)
    requires t.baseline == PrimaryOnly(0.0)
    ensures Verdict(DefaultOptions(), PrimaryOnly(0.0), t, Scored(PrimaryOnly(1.0)))
         == t.(score := PrimaryOnly(1.0), kept := true)
  {
    UnknownPasses(0.0, 1.0);
  }

  /** On every project with a change that applies there is a run, under the default options,
      that reports it was canceled and the surface restored, and has the change on disk. */
  lemma CanceledKeepsChanges(start: RunState, c: Change)
    requires start == Start(start.disk, start.knobs, PrimaryOnly(0.0))
    requires Apply(start.knobs, start.disk, c, None).Written?
    ensures var f := Loop(DefaultOptions(), CancelAfterFirst(c), PrimaryOnly(0.0), start);
            && f.reason == StopCanceled && f.state.kept == [c]
            && f.state.disk == Apply(start.knobs, start.disk, c, None).disk
  {
    var opts, env, base := DefaultOptions(), CancelAfterFirst(c), PrimaryOnly(0.0);
    FirstIsKept(start, c);
    var next := Advance(opts, env, base, start, c);
    HeadsAroundCancel(start, next, c);
    LoopOnce(opts, env, base, start);
    LoopOnce(opts, env, base, next);
  }

  lemma HeadsAroundCancel(start: RunState, next: RunState, c: Change)
    requires |start.trials| == 0 && start.tokens == 0 && |next.trials| == 1 && next.tokens == 0
    ensures Head(DefaultOptions(), CancelAfterFirst(c), start) == Try(c)
    ensures Head(DefaultOptions(), CancelAfterFirst(c), next) == Halt(StopCanceled)
  {
  }

  // ---- "budget spent - the surface was NOT exhausted" ----------------------

  function Capped(opts: Options, n: nat): Options {
    opts.(budget := opts.budget.(maxExperiments := n))
  }

  lemma CapIrrelevant(opts: Options, n: nat, env: Env, base: Score, st: RunState, c: Change)
    ensures RunTrial(Capped(opts, n), env, base, st, c) == RunTrial(opts, env, base, st, c)
  {
    var t := Opening(opts, st, c);
    assert Opening(Capped(opts, n), st, c) == t;
    var faults := env.faults(|st.trials|);
    if !opts.dryRun && Lookup(st.knobs, c.knobID).Some? && faults.capture.None? {
      match Apply(st.knobs, st.disk, c, faults.write) {
        case Refused(_) =>
        case Written(_, disk) => VerdictCap(opts, n, base, t, env.evaluate(|st.trials| + 1, disk));
      }
    }
  }

  lemma VerdictCap(opts: Options, n: nat, base: Score, t: Trial, outcome: Outcome)
    ensures Verdict(Capped(opts, n), base, t, outcome) == Verdict(opts, base, t, outcome)
  {
  }

  lemma AdvanceCap(opts: Options, n: nat, env: Env, base: Score, st: RunState, c: Change)
    ensures Advance(Capped(opts, n), env, base, st, c) == Advance(opts, env, base, st, c)
  {
    CapIrrelevant(opts, n, env, base, st, c);
  }

  /** Every run that exhausts the surface after n trials, given a budget of n experiments
      instead, ends in the very same state and reports a spent budget and a surface that was
      not exhausted, with nothing left that its proposer would propose. */
  lemma {:induction false} TightBudgetMisreports(opts: Options, env: Env, base: Score, st: RunState, n: nat)
    requires Loop(opts, env, base, st).reason == StopExhausted && |Loop(opts, env, base, st).state.trials| == n
    requires LastError(st) == ""
    ensures Loop(Capped(opts, n), env, base, st) == Finish(Loop(opts, env, base, st).state, StopExperiments)
    ensures var end := Loop(Capped(opts, n), env, base, st).state; env.propose(end.knobs, end.trials).NoProposal?
    decreases opts.budget.maxExperiments - |st.trials|
  {
    LoopOnce(opts, env, base, st);
    LoopOnce(Capped(opts, n), env, base, st);
    LoopExtends(opts, env, base, st);
    if Head(opts, env, st).Try? {
      var c := Head(opts, env, st).change;
      var st' := Advance(opts, env, base, st, c);
      AdvanceCap(opts, n, env, base, st, c);
      LoopExtends(opts, env, base, st');
      TightBudgetMisreports(opts, env, base, st', n);
    }
  }

  /** A run that kept nothing still shows what it started with, and tried nothing that every knob
      of its id showed. */
  ghost predicate Idle(start: RunState, st: RunState) {
    SameView(st.knobs, start.knobs) && Pairs(st.trials) !! Holding(start.knobs)
  }

  lemma {:induction false} KeptNothingIdle(opts: Options, env: Env, base: Score, o: Orders, start: RunState,
                                           sts: seq<RunState>)
    requires o.Valid() && ProposesDet(env, o) && Execution(opts, env, base, start, sts)
    requires start.trials == [] && start.kept == [] && sts[|sts| - 1].kept == [] && LastError(sts[|sts| - 1]) == ""
    requires HonestFrom(opts, env, base, start)
    ensures Idle(start, sts[|sts| - 1])
  {
    if |sts| == 1 {
      assert Pairs(start.trials) == {};
    } else {
      var front, a, b := sts[..|sts| - 1], sts[|sts| - 2], sts[|sts| - 1];
      ExecutionPrefix(opts, env, base, start, sts);
      assert a == front[|front| - 1] && HonestAt(opts, env, a);
      KeptNothingIdle(opts, env, base, o, start, front);
      StepIdle(opts, env, base, o, start, a, b);
    }
  }

  lemma StepIdle(opts: Options, env: Env, base: Score, o: Orders, start: RunState, a: RunState, b: RunState)
    requires o.Valid() && ProposesDet(env, o) && Step(opts, env, base, a, b) && HonestAt(opts, env, a)
    requires Idle(start, a) && b.kept == [] && LastError(b) == ""
    ensures Idle(start, b)
  {
    var c := Head(opts, env, a).change;
    assert DetPropose(o, a.knobs, a.trials) == Proposal.Propose(c);
    var i :| 0 <= i < |a.knobs| && Chosen(o, a.knobs, a.trials, i, c);
    Books.TrialVerdict(opts, env, base, a, c);
    UnkeptKeepsView(opts, env, base, a, c);
    ViewTrans(b.knobs, a.knobs, start.knobs);
    ViewAt(a.knobs, start.knobs, i);
    PairsSnoc(a.trials, RunTrial(opts, env, base, a, c).trial);
    MovedIsNotHeld(start.knobs, i, c);
  }

  lemma ViewTrans(a: seq<Knob>, b: seq<Knob>, c: seq<Knob>)
    requires SameView(a, b) && SameView(b, c)
    ensures SameView(a, c)
  {
  }

  lemma MovedIsNotHeld(knobs: seq<Knob>, i: nat, c: Change)
    requires i < |knobs| && c.knobID == knobs[i].id && c.after != knobs[i].value
    requires c.after in knobs[i].domain.Candidates()
    ensures (c.knobID, c.after) !in Holding(knobs)
  {
    assert knobs[i] in knobs;
  }

  lemma HoldingAlike(a: seq<Knob>, b: seq<Knob>)
    requires SameView(a, b)
    ensures Holding(a) <= Holding(b)
  {
    forall p | p in Holding(a) ensures p in Holding(b) {
      var k :| k in a && k.value in k.domain.Candidates() && Agreed(a, k.id, k.value) && p == (k.id, k.value);
      var i :| 0 <= i < |a| && a[i] == k;
      ViewAt(a, b, i);
      assert b[i] in b;
      AgreedAlike(a, b, k.id, k.value);
    }
  }

  lemma AgreedAlike(a: seq<Knob>, b: seq<Knob>, id: string, v: string)
    requires SameView(a, b) && Agreed(a, id, v)
    ensures Agreed(b, id, v)
  {
    forall k | k in b && k.id == id && v in k.domain.Candidates() ensures k.value == v {
      var i :| 0 <= i < |b| && b[i] == k;
      ViewAt(a, b, i);
      assert a[i] in a;
    }
  }

  /** Exactly which budget makes "the surface was NOT exhausted" a wrong report of a run that keeps
      nothing: the size of the space less the values the surface starts on. Any smaller one is
      reported rightly, and no larger one is ever spent. */
  lemma MisreportsIffExactBudget(opts: Options, env: Env, base: Score, o: Orders, start: RunState)
    requires o.Valid() && ProposesDet(env, o) && HonestFrom(opts, env, base, start)
    requires start.trials == [] && start.kept == [] && opts.budget.maxExperiments >= 0
    requires Loop(opts, env, base, start).reason == StopExperiments && Loop(opts, env, base, start).state.kept == []
    ensures var end := Loop(opts, env, base, start).state;
            && opts.budget.maxExperiments + |Holding(start.knobs)| <= |Space(start.knobs)|
            && (DetPropose(o, end.knobs, end.trials).NoProposal? <==>
                opts.budget.maxExperiments + |Holding(start.knobs)| == |Space(start.knobs)|)
  {
    var end := Loop(opts, env, base, start).state;
    var sts := LoopExecutes(opts, env, base, start);
    Books.StopReasonIsTrue(opts, env, base, start);
    ExecutionDetSweeps(opts, env, base, o, start, sts);
    KeptNothingIdle(opts, env, base, o, start, sts);
    IdleCount(o, sts);
  }

  lemma IdleCount(o: Orders, sts: seq<RunState>)
    requires o.Valid() && DetSweep(o, sts) && Idle(sts[0], sts[|sts| - 1])
    ensures var st := sts[|sts| - 1];
            && |st.trials| + |Holding(sts[0].knobs)| <= |Space(sts[0].knobs)|
            && (DetPropose(o, st.knobs, st.trials).NoProposal? <==>
                |st.trials| + |Holding(sts[0].knobs)| == |Space(sts[0].knobs)|)
  {
    var st := sts[|sts| - 1];
    NotExhaustedIffShort(o, sts);
    NoPairTwice(o, sts);
    PairsInSpace(o, sts);
    HoldingSame(st.knobs, sts[0].knobs);
    SameSpace(sts[0].knobs, sts[0].knobs);
    CountDisjoint(Pairs(st.trials), Holding(sts[0].knobs), Space(sts[0].knobs));
  }

  lemma HoldingSame(a: seq<Knob>, b: seq<Knob>)
    requires SameView(a, b)
    ensures Holding(a) == Holding(b)
  {
    HoldingAlike(a, b);
    ViewBack(a, b);
    HoldingAlike(b, a);
  }

  lemma CountDisjoint<T>(tried: set<T>, held: set<T>, space: set<T>)
    requires tried <= space && held <= space && tried !! held
    ensures held - tried == held && |tried| + |held| <= |space|
  {
    SubsetSize(tried + held, space);
    assert |tried + held| == |tried| + |held|;
  }

  lemma ViewBack(a: seq<Knob>, b: seq<Knob>)
    requires SameView(a, b)
    ensures SameView(b, a)
  {
  }

  // ---- "evaluation failed - the run stopped" -------------------------------

  /** An evaluator that fails stops the run if and only if its error has a message: the loop
      looks at the text, so an error that prints as nothing is taken for an unkept trial. */
  lemma EvaluatorErrorStopsIff(opts: Options, env: Env, base: Score, st: RunState, error: string)
    requires !opts.dryRun && Head(opts, env, st).Try? && env.faults(|st.trials|).restore.None?
    requires var c := Head(opts, env, st).change;
             && TrialEffect(opts, env, base, st, c) != Untouched
             && var applied := Apply(st.knobs, st.disk, c, env.faults(|st.trials|).write);
                env.evaluate(|st.trials| + 1, applied.disk) == EvalError(error)
    ensures var next := Advance(opts, env, base, st, Head(opts, env, st).change);
            && (error != "" ==> Loop(opts, env, base, st) == Finish(next, ErrorStop(env, next)))
            && (error == "" ==> Loop(opts, env, base, st) == Loop(opts, env, base, next))
            && next.kept == st.kept
  {
    var c := Head(opts, env, st).change;
    LoopOnce(opts, env, base, st);
    var r := RunTrial(opts, env, base, st, c);
    assert r.trial == Opening(opts, st, c).(error := error);
  }
}
