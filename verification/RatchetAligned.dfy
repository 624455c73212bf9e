/** Two agent files may carry the same id. On which surfaces every proposal of the shipped
    proposers is nevertheless honest about Before, for whole runs. */
module RatchetAligned {
  import opened Text
  import opened Surface
  import opened Guards
  import opened Trials
  import opened Propose
  import opened Ratchet
  import opened RatchetRestore
  import opened RatchetSweep
  import opened RatchetRuns
  import opened RatchetSentences
  import Dry = RatchetDry

  /** Apply and SetValue reach this knob: it is the last of its id. */
  predicate IsLast(knobs: seq<Knob>, i: nat)
    requires i < |knobs|
  {
    Lookup(knobs, knobs[i].id) == Some(i)
  }

  /** Knob i can be proposed, another knob of its id is the one written, and either the two differ
      or the trials are charged to a third. */
  predicate Stale(knobs: seq<Knob>, i: nat)
    requires i < |knobs|
  {
    && Enumerable(knobs[i]) && !IsLast(knobs, i)
    && (knobs[i].value != CurrentValue(knobs, knobs[i].id) || !FirstOfID(knobs, i))
  }

  predicate Aligned(knobs: seq<Knob>) { forall i :: 0 <= i < |knobs| ==> !Stale(knobs, i) }

  // ---- an aligned surface keeps every proposal honest ----------------------

  /** Only last knobs move, and only to values tried. */
  ghost predicate AnchoredAt(start: seq<Knob>, st: RunState, j: nat)
    requires j < |start| == |st.knobs|
  {
    Enumerable(start[j]) && st.knobs[j].value != start[j].value ==>
      IsLast(start, j) && Tried(st.trials, start[j].id, st.knobs[j].value)
  }

  ghost predicate Anchored(start: seq<Knob>, st: RunState) {
    SameShape(start, st.knobs) && forall j :: 0 <= j < |start| ==> AnchoredAt(start, st, j)
  }

  lemma {:induction false} TriedMoves(trials: seq<Trial>, id: string, v: string)
    requires Tried(trials, id, v)
    ensures Moves(trials, id) > 0
  {
    var last := trials[|trials| - 1];
    if last.knobID != id {
      var i :| 0 <= i < |trials| && trials[i].knobID == id && trials[i].after == v;
      assert trials[..|trials| - 1][i] == trials[i];
      TriedMoves(trials[..|trials| - 1], id, v);
    }
  }

  /** A knob later of its id than the first is never charged, so it goes before a charged first. */
  lemma LastGoesFirst(o: Orders, knobs: seq<Knob>, trials: seq<Trial>, i: nat, l: nat, c: Change)
    requires o.Valid() && Regular(knobs) && i < l < |knobs| && knobs[i].id == knobs[l].id && FirstOfID(knobs, i)
    requires Moves(trials, knobs[i].id) > 0 && Tried(trials, knobs[l].id, knobs[l].value)
    ensures !Chosen(o, knobs, trials, i, c)
  {
    if Chosen(o, knobs, trials, i, c) {
      assert Fresh(knobs[l], trials, c.after);
      assert Open(knobs[l], trials);
      assert Tries(knobs, trials, l) == 0;
      ChosenIsLeastTried(o, knobs, trials, i, l, c);
      assert false;
    }
  }

  /** On an aligned surface the sweep's Before is what the last knob of the id holds. */
  lemma ChosenHonest(o: Orders, start: seq<Knob>, st: RunState, i: nat, c: Change)
    requires o.Valid() && Regular(start) && Aligned(start) && Anchored(start, st)
    requires i < |st.knobs| && Chosen(o, st.knobs, st.trials, i, c)
    ensures c.before == CurrentValue(st.knobs, c.knobID)
  {
    var l := Lookup(st.knobs, c.knobID).value;
    ShapeLookup(start, st.knobs, c.knobID);
    ShapeRegular(start, st.knobs);
    if l != i {
      SameKnob(start, st.knobs, i);
      SameKnob(start, st.knobs, l);
      assert !Stale(start, i) && AnchoredAt(start, st, i) && AnchoredAt(start, st, l);
      if st.knobs[l].value != start[l].value {
        TriedMoves(st.trials, c.knobID, st.knobs[l].value);
        SameFirst(start, st.knobs, i);
        LastGoesFirst(o, st.knobs, st.trials, i, l, c);
        assert false;
      }
    }
  }

  lemma SameFirst(a: seq<Knob>, b: seq<Knob>, i: nat)
    requires SameShape(a, b) && i < |a|
    ensures FirstOfID(a, i) == FirstOfID(b, i)
  {
    forall j | 0 <= j < |a| ensures a[j].id == b[j].id {
      SameKnob(a, b, j);
    }
  }

  /** An honest sweep step keeps the surface anchored. */
  lemma StepAnchored(o: Orders, start: seq<Knob>, a: RunState, b: RunState)
    requires o.Valid() && Regular(start) && Anchored(start, a) && SweepStep(o, a, b)
    requires var c := ChangeOf(b.trials[|b.trials| - 1]); c.before == CurrentValue(a.knobs, c.knobID)
    ensures Anchored(start, b)
  {
    var t, i := StepMove(o, a, b);
    ShapeRegular(start, a.knobs);
    forall j | 0 <= j < |start| ensures Fixed(b.knobs[j]) == Fixed(start[j]) {
      assert Fixed(a.knobs[j]) == Fixed(start[j]);
    }
    forall j | 0 <= j < |start| ensures AnchoredAt(start, b, j) {
      AnchorKnob(o, start, a, b, t, i, j);
    }
  }

  lemma AnchorKnob(o: Orders, start: seq<Knob>, a: RunState, b: RunState, t: Trial, i: nat, j: nat)
    requires o.Valid() && Anchored(start, a) && Regular(a.knobs) && b.trials == a.trials + [t]
    requires i < |a.knobs| == |b.knobs| && j < |start|
    requires SweepMove(o, a.knobs, a.trials, i, ChangeOf(t)) && Moved(a.knobs, b.knobs, ChangeOf(t))
    requires t.before == CurrentValue(a.knobs, t.knobID)
    ensures AnchoredAt(start, b, j)
  {
    assert AnchoredAt(start, a, j);
    SameKnob(start, a.knobs, j);
    StepValue(o, a, b, t, i, j);
    ShapeLookup(start, a.knobs, t.knobID);
    TriedSnoc(a.trials, t, start[j].id, b.knobs[j].value);
  }

  /** The proposer is honest wherever the surface is anchored. */
  ghost predicate HonestWhileAnchored(opts: Options, env: Env, start: seq<Knob>) {
    forall st :: Anchored(start, st) ==> HonestAt(opts, env, st)
  }

  lemma {:induction false} ExecutionAnchored(opts: Options, env: Env, base: Score, o: Orders,
                                             start: RunState, sts: seq<RunState>)
    requires o.Valid() && ProposesSweep(env, o) && Execution(opts, env, base, start, sts)
    requires Regular(start.knobs) && HonestWhileAnchored(opts, env, start.knobs)
    ensures Anchored(start.knobs, sts[|sts| - 1])
  {
    if |sts| > 1 {
      var a, b := sts[|sts| - 2], sts[|sts| - 1];
      ExecutionPrefix(opts, env, base, start, sts);
      ExecutionAnchored(opts, env, base, o, start, sts[..|sts| - 1]);
      StepSweeps(opts, env, base, o, a, b);
      HonestStep(opts, env, base, o, a, b);
      StepAnchored(o, start.knobs, a, b);
    }
  }

  /** The record of a step carries its proposal. */
  lemma HonestStep(opts: Options, env: Env, base: Score, o: Orders, a: RunState, b: RunState)
    requires o.Valid() && Step(opts, env, base, a, b) && HonestAt(opts, env, a) && SweepStep(o, a, b)
    ensures var c := ChangeOf(b.trials[|b.trials| - 1]); c.before == CurrentValue(a.knobs, c.knobID)
  {
    var c := Head(opts, env, a).change;
    Books.TrialVerdict(opts, env, base, a, c);
    assert ChangeOf(b.trials[|b.trials| - 1]) == c;
    var t, i := StepMove(o, a, b);
    MoveIsFresh(o, a.knobs, a.trials, i, ChangeOf(t));
    assert a.knobs[i].id == c.knobID;
  }

  lemma AlwaysHonest(opts: Options, env: Env, base: Score, o: Orders, start: RunState)
    requires o.Valid() && ProposesSweep(env, o)
    requires Regular(start.knobs) && HonestWhileAnchored(opts, env, start.knobs)
    ensures Dry.HonestFrom(opts, env, base, start)
  {
    forall sts | Execution(opts, env, base, start, sts) ensures HonestAt(opts, env, sts[|sts| - 1]) {
      ExecutionAnchored(opts, env, base, o, start, sts);
    }
  }

  lemma DetHonest(opts: Options, env: Env, o: Orders, start: seq<Knob>)
    requires o.Valid() && ProposesDet(env, o) && Regular(start) && Aligned(start)
    ensures HonestWhileAnchored(opts, env, start)
  {
    forall st | Anchored(start, st) ensures HonestAt(opts, env, st) {
      if Head(opts, env, st).Try? {
        var c := Head(opts, env, st).change;
        assert DetPropose(o, st.knobs, st.trials) == Proposal.Propose(c);
        var i :| 0 <= i < |st.knobs| && Chosen(o, st.knobs, st.trials, i, c);
        ChosenHonest(o, start, st, i, c);
      }
    }
  }

  /** Every proposal of every deterministic run on an aligned surface is honest about Before: what
      agreement, the net effect of kept changes and the dry run's preview ask of a proposer. */
  lemma AlignedIsHonest(opts: Options, env: Env, base: Score, o: Orders, start: RunState)
    requires o.Valid() && ProposesDet(env, o) && Regular(start.knobs) && Aligned(start.knobs)
    ensures Dry.HonestFrom(opts, env, base, start)
  {
    DetIsShipped(env, o, 0);
    ShippedSweeps(env, o, None, 0);
    DetHonest(opts, env, o, start.knobs);
    AlwaysHonest(opts, env, base, o, start);
  }

  lemma HonestEverywhere(opts: Options, env: Env, base: Score, start: RunState, sts: seq<RunState>)
    requires Execution(opts, env, base, start, sts) && Dry.HonestFrom(opts, env, base, start)
    ensures forall i :: 0 <= i < |sts| ==> HonestAt(opts, env, sts[i])
  {
    forall i | 0 <= i < |sts| ensures HonestAt(opts, env, sts[i]) {
      ExecutionTake(opts, env, base, start, sts, i + 1);
      assert sts[..i + 1][|sts[..i + 1]| - 1] == sts[i];
    }
  }

  lemma HonestAgrees(opts: Options, env: Env, base: Score, layout: Layout, start: RunState, sts: seq<RunState>)
    requires Separate(layout) && start.knobs == Reflect(start.disk, layout) && Execution(opts, env, base, start, sts)
    requires Dry.HonestFrom(opts, env, base, start)
    ensures Agrees(layout, sts[|sts| - 1].disk, sts[|sts| - 1].knobs)
  {
    HonestEverywhere(opts, env, base, start, sts);
    SurfaceAgrees(opts, env, base, layout, start, sts);
  }

  /** Distinct ids, text knobs included, are always aligned. */
  lemma SoleIsAligned(knobs: seq<Knob>)
    requires forall i :: 0 <= i < |knobs| ==> Sole(knobs, i)
    ensures Aligned(knobs) && forall i :: 0 <= i < |knobs| ==> IsLast(knobs, i)
  {
    forall i | 0 <= i < |knobs| ensures IsLast(knobs, i) {
      assert Sole(knobs, i) && Lookup(knobs, knobs[i].id).Some?;
    }
  }

  // ---- what honesty gives, from the start surface alone --------------------

  /** On an aligned surface a dry run previews every live deterministic run that keeps nothing. */
  lemma AlignedDryRunPredicts(live: Options, env: Env, base: Score, dry: Options, env': Env, base': Score, o: Orders,
                              start: RunState)
    requires o.Valid() && ProposesDet(env, o) && ProposesDet(env', o)
    requires Regular(start.knobs) && Aligned(start.knobs) && start.trials == []
    requires dry.dryRun && live.budget.maxExperiments == dry.budget.maxExperiments
    requires |Loop(live, env, base, start).state.kept| == |start.kept|
    ensures Dry.Previews(Loop(live, env, base, start), Loop(dry, env', base', start))
  {
    AlignedIsHonest(live, env, base, o, start);
    Dry.DryRunPredicts(live, env, base, start, dry, env', base', start, o);
  }

  /** And a deterministic run leaves it in its pre-run state exactly when its kept changes net out. */
  lemma AlignedRestoredIff(opts: Options, env: Env, base: Score, o: Orders, start: RunState, sts: seq<RunState>)
    requires o.Valid() && ProposesDet(env, o) && Execution(opts, env, base, start, sts) && start.kept == []
    requires Regular(start.knobs) && Aligned(start.knobs)
    requires RestoresWork(env) || LastError(sts[|sts| - 1]) == ""
    ensures Dry.SameView(sts[|sts| - 1].knobs, start.knobs) <==> NetsOut(start.knobs, sts[|sts| - 1].kept)
  {
    AlignedIsHonest(opts, env, base, o, start);
    HonestEverywhere(opts, env, base, start, sts);
    RestoredIffNetsOut(opts, env, base, start, sts);
  }

  /** And a spent budget misreports it exactly when it is the size of the space less the values the
      surface starts on, if the run kept nothing. */
  lemma AlignedMisreportsIff(opts: Options, env: Env, base: Score, o: Orders, start: RunState)
    requires o.Valid() && ProposesDet(env, o) && Regular(start.knobs) && Aligned(start.knobs)
    requires start.trials == [] && start.kept == [] && opts.budget.maxExperiments >= 0
    requires Loop(opts, env, base, start).reason == StopExperiments && Loop(opts, env, base, start).state.kept == []
    ensures var end := Loop(opts, env, base, start).state;
            DetPropose(o, end.knobs, end.trials).NoProposal? <==>
            opts.budget.maxExperiments + |Holding(start.knobs)| == |Space(start.knobs)|
  {
    AlignedIsHonest(opts, env, base, o, start);
    MisreportsIffExactBudget(opts, env, base, o, start);
  }
}
