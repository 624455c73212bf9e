/** A dry run as a faithful preview: it refines the live run that keeps nothing. */
module RatchetDry {
  import opened Text
  import opened Surface
  import opened Guards
  import opened Trials
  import opened Propose
  import opened Ratchet
  import opened RatchetSweep
  import opened RatchetRuns
  import Restore = RatchetRestore
  import Books = RatchetBooks

  // ---- what the deterministic proposer looks at ----------------------------

  /** Two histories that moved the same knobs to the same values in the same order. */
  ghost predicate SameScript(a: seq<Trial>, b: seq<Trial>) {
    |a| == |b| && SameUpTo(a, b, |a|)
  }

  ghost predicate SameUpTo(a: seq<Trial>, b: seq<Trial>, n: nat) {
    n <= |a| && n <= |b| && forall i :: 0 <= i < n ==> ChangeOf(a[i]) == ChangeOf(b[i])
  }

  /** Two surfaces that show the same knobs with the same values. */
  ghost predicate SameView(a: seq<Knob>, b: seq<Knob>) {
    |a| == |b| && forall i :: 0 <= i < |a| ==> Forget(a[i]) == Forget(b[i])
  }

  lemma ViewAt(a: seq<Knob>, b: seq<Knob>, i: nat)
    requires SameView(a, b) && i < |a|
    ensures a[i].id == b[i].id && a[i].value == b[i].value && a[i].domain == b[i].domain
  {
    assert Forget(a[i]).id == Forget(b[i]).id && Forget(a[i]).value == Forget(b[i]).value;
    assert Forget(a[i]).domain == Forget(b[i]).domain;
  }

  lemma TriedAlike(a: seq<Trial>, b: seq<Trial>, id: string, v: string)
    requires SameScript(a, b) && Tried(a, id, v)
    ensures Tried(b, id, v)
  {
    var i :| 0 <= i < |a| && a[i].knobID == id && a[i].after == v;
    assert ChangeOf(a[i]) == ChangeOf(b[i]);
  }

  lemma {:induction false} MovesAlike(a: seq<Trial>, b: seq<Trial>, id: string)
    requires SameScript(a, b)
    ensures Moves(a, id) == Moves(b, id)
  {
    if a != [] {
      assert ChangeOf(a[|a| - 1]) == ChangeOf(b[|b| - 1]);
      MovesAlike(a[..|a| - 1], b[..|b| - 1], id);
    }
  }

  /** Two knobs in two histories that look the same to the proposer. */
  ghost predicate Alike(k: Knob, a: seq<Trial>, k': Knob, b: seq<Trial>) {
    && k.id == k'.id && k.value == k'.value && k.domain == k'.domain
    && forall v :: Tried(a, k.id, v) <==> Tried(b, k.id, v)
  }

  lemma ScriptAlike(knobs: seq<Knob>, a: seq<Trial>, knobs': seq<Knob>, b: seq<Trial>, i: nat)
    requires SameView(knobs, knobs') && SameScript(a, b) && i < |knobs|
    ensures Alike(knobs[i], a, knobs'[i], b)
  {
    ViewAt(knobs, knobs', i);
    forall v ensures Tried(a, knobs[i].id, v) <==> Tried(b, knobs[i].id, v) {
      if Tried(a, knobs[i].id, v) {
        TriedAlike(a, b, knobs[i].id, v);
      }
      if Tried(b, knobs[i].id, v) {
        TriedAlike(b, a, knobs[i].id, v);
      }
    }
  }

  lemma {:induction false} FirstFreshAlike(k: Knob, a: seq<Trial>, k': Knob, b: seq<Trial>, order: seq<nat>)
    requires Alike(k, a, k', b) && forall i :: 0 <= i < |order| ==> order[i] < |k.domain.Candidates()|
    ensures FirstFresh(k, a, order) == FirstFresh(k', b, order)
  {
    if order != [] {
      FirstFreshAlike(k, a, k', b, order[1..]);
    }
  }

  lemma NextValueAlike(o: Orders, k: Knob, a: seq<Trial>, k': Knob, b: seq<Trial>)
    requires o.Valid() && Alike(k, a, k', b)
    ensures NextValue(o, k, a) == NextValue(o, k', b)
  {
    var order := o.values(k.id, |k.domain.Candidates()|);
    assert IsPermutation(order, |k.domain.Candidates()|);
    FirstFreshAlike(k, a, k', b, order);
  }

  lemma TriesAlike(knobs: seq<Knob>, a: seq<Trial>, knobs': seq<Knob>, b: seq<Trial>, i: nat)
    requires SameView(knobs, knobs') && SameScript(a, b) && i < |knobs|
    ensures Tries(knobs, a, i) == Tries(knobs', b, i)
  {
    forall j | 0 <= j < |knobs| ensures knobs[j].id == knobs'[j].id {
      ViewAt(knobs, knobs', j);
    }
    MovesAlike(a, b, knobs[i].id);
  }

  lemma BeforeAlike(o: Orders, knobs: seq<Knob>, a: seq<Trial>, knobs': seq<Knob>, b: seq<Trial>, i: nat, j: nat)
    requires o.Valid() && SameView(knobs, knobs') && SameScript(a, b) && i < |knobs| && j < |knobs|
    ensures Before(o, knobs, a, i, j) == Before(o, knobs', b, i, j)
  {
    TriesAlike(knobs, a, knobs', b, i);
    TriesAlike(knobs, a, knobs', b, j);
  }

  lemma OpenAlike(knobs: seq<Knob>, a: seq<Trial>, knobs': seq<Knob>, b: seq<Trial>, i: nat)
    requires SameView(knobs, knobs') && SameScript(a, b) && i < |knobs|
    ensures Open(knobs[i], a) == Open(knobs'[i], b)
  {
    ScriptAlike(knobs, a, knobs', b, i);
    forall v ensures Fresh(knobs[i], a, v) == Fresh(knobs'[i], b, v) {
    }
  }

  lemma FirstOpenAlike(o: Orders, knobs: seq<Knob>, a: seq<Trial>, knobs': seq<Knob>, b: seq<Trial>, n: nat, r: nat)
    requires o.Valid() && SameView(knobs, knobs') && SameScript(a, b) && n <= |knobs| && FirstOpen(o, knobs, a, n, r)
    ensures FirstOpen(o, knobs', b, n, r)
  {
    OpenAlike(knobs, a, knobs', b, r);
    forall j | 0 <= j < n && j != r && Open(knobs'[j], b) ensures Before(o, knobs', b, r, j) {
      OpenAlike(knobs, a, knobs', b, j);
      BeforeAlike(o, knobs, a, knobs', b, r, j);
    }
  }

  lemma EarliestAlike(o: Orders, knobs: seq<Knob>, a: seq<Trial>, knobs': seq<Knob>, b: seq<Trial>)
    requires o.Valid() && SameView(knobs, knobs') && SameScript(a, b)
    ensures Earliest(o, knobs, a, |knobs|) == Earliest(o, knobs', b, |knobs'|)
  {
    var r, r' := Earliest(o, knobs, a, |knobs|), Earliest(o, knobs', b, |knobs'|);
    if r.Some? {
      FirstOpenAlike(o, knobs, a, knobs', b, |knobs|, r.value);
      FirstOpenIsEarliest(o, knobs', b, r.value);
    } else {
      forall j | 0 <= j < |knobs'| ensures !Open(knobs'[j], b) {
        OpenAlike(knobs, a, knobs', b, j);
      }
      assert BestOf(o, knobs', b, |knobs'|, r');
    }
  }

  /** The deterministic proposer depends on nothing but the values shown and the changes
      already made: not on scores, verdicts, errors, or whether a trial was applied. */
  lemma DetProposeAlike(o: Orders, knobs: seq<Knob>, a: seq<Trial>, knobs': seq<Knob>, b: seq<Trial>)
    requires o.Valid() && SameView(knobs, knobs') && SameScript(a, b)
    ensures DetPropose(o, knobs, a) == DetPropose(o, knobs', b)
  {
    EarliestAlike(o, knobs, a, knobs', b);
    var r := Earliest(o, knobs, a, |knobs|);
    if r.Some? {
      ScriptAlike(knobs, a, knobs', b, r.value);
      NextValueAlike(o, knobs[r.value], a, knobs'[r.value], b);
    }
  }

  // ---- an unkept trial changes nothing the proposer sees -------------------

  lemma ViewOfValues(a: seq<Knob>, b: seq<Knob>)
    requires Values(a) == Values(b)
    ensures SameView(a, b)
  {
    assert |Values(a)| == |a| && |Values(b)| == |b|;
    forall i | 0 <= i < |a| ensures Forget(a[i]) == Forget(b[i]) {
      assert Values(a)[i] == Forget(a[i]) && Values(b)[i] == Forget(b[i]);
    }
  }

  lemma {:induction false} TrimKeepsSolid(s: string, i: nat)
    requires i < |s| && !IsSpace(s[i])
    ensures TrimLeft(s) != []
    ensures TrimRight(s) != []
    ensures Trim(s) != ""
  {
    if IsSpace(s[0]) {
      TrimKeepsSolid(s[1..], i - 1);
    } else {
      TrimRightKeepsHead(s);
    }
    if IsSpace(s[|s| - 1]) {
      TrimKeepsSolid(s[..|s| - 1], i);
    }
    TrimLeftStartsSolid(s);
    TrimRightKeepsHead(TrimLeft(s));
  }

  lemma RestoreMessage(error: string, fault: string)
    ensures Trim(error + " | restore failed: " + fault) != ""
  {
    var s := error + " | restore failed: " + fault;
    assert s[|error| + 1] == '|';
    TrimKeepsSolid(s, |error| + 1);
  }

  /** A restore that fails always shows: the trial carries an error. */
  lemma FailedRestoreShows(opts: Options, env: Env, base: Score, st: RunState, c: Change)
    requires TrialEffect(opts, env, base, st, c) == Stays && !RunTrial(opts, env, base, st, c).trial.kept
    ensures RunTrial(opts, env, base, st, c).trial.error != ""
  {
    var applied := Apply(st.knobs, st.disk, c, env.faults(|st.trials|).write);
    var v := Verdict(opts, base, Opening(opts, st, c), env.evaluate(|st.trials| + 1, applied.disk));
    RestoreMessage(v.error, env.faults(|st.trials|).restore.value);
  }

  lemma UnkeptKeepsView(opts: Options, env: Env, base: Score, st: RunState, c: Change)
    requires !RunTrial(opts, env, base, st, c).trial.kept && RunTrial(opts, env, base, st, c).trial.error == ""
    requires c.before == CurrentValue(st.knobs, c.knobID)
    ensures SameView(RunTrial(opts, env, base, st, c).knobs, st.knobs)
  {
    var effect, applied := TrialCases(opts, env, base, st, c);
    match effect {
      case Untouched =>
      case Stays => FailedRestoreShows(opts, env, base, st, c);
      case Reverts =>
        Restore.RevertValues(st.knobs, st.disk, c, env.faults(|st.trials|).write);
        ViewOfValues(RunTrial(opts, env, base, st, c).knobs, st.knobs);
    }
  }

  // ---- whole runs ----------------------------------------------------------

  /** Every proposal of a run from st on is honest about Before. */
  ghost predicate HonestFrom(opts: Options, env: Env, base: Score, st: RunState) {
    forall sts :: Execution(opts, env, base, st, sts) ==> Restore.HonestAt(opts, env, sts[|sts| - 1])
  }

  lemma HonestNow(opts: Options, env: Env, base: Score, st: RunState)
    requires HonestFrom(opts, env, base, st)
    ensures Restore.HonestAt(opts, env, st)
  {
    assert Execution(opts, env, base, st, [st]);
  }

  lemma HonestNext(opts: Options, env: Env, base: Score, a: RunState, b: RunState)
    requires HonestFrom(opts, env, base, a) && Step(opts, env, base, a, b)
    ensures HonestFrom(opts, env, base, b)
  {
    forall sts | Execution(opts, env, base, b, sts) ensures Restore.HonestAt(opts, env, sts[|sts| - 1]) {
      ExecutionCons(opts, env, base, a, b, sts);
      assert ([a] + sts)[|[a] + sts| - 1] == sts[|sts| - 1];
    }
  }

  /** A run only ever adds to its history. */
  lemma {:induction false} LoopExtends(opts: Options, env: Env, base: Score, st: RunState)
    ensures var f := Loop(opts, env, base, st).state;
            && st.trials <= f.trials && |st.kept| <= |f.kept|
    decreases opts.budget.maxExperiments - |st.trials|
  {
    if Head(opts, env, st).Try? {
      var st' := Advance(opts, env, base, st, Head(opts, env, st).change);
      if LastError(st') == "" {
        LoopExtends(opts, env, base, st');
      }
    }
  }

  function Min(a: nat, b: nat): nat { if a < b then a else b }

  lemma SnocScript(a: seq<Trial>, t: Trial, b: seq<Trial>, t': Trial)
    requires SameScript(a, b) && ChangeOf(t) == ChangeOf(t')
    ensures SameScript(a + [t], b + [t'])
  {
  }

  lemma PrefixScript(a: seq<Trial>, b: seq<Trial>, longA: seq<Trial>, longB: seq<Trial>)
    requires SameScript(a, b) && a <= longA && b <= longB
    ensures SameUpTo(longA, longB, |a|)
  {
  }

  /** Both runs try the same change, and a live trial that keeps nothing and reports no error
      leaves both with the same view. */
  lemma PreviewStep(live: Options, env: Env, base: Score, a: RunState, dry: Options, env': Env, base': Score,
                    b: RunState, c: Change)
    requires dry.dryRun && SameView(a.knobs, b.knobs) && SameScript(a.trials, b.trials)
    requires c.before == CurrentValue(a.knobs, c.knobID)
    ensures var a', b' := Advance(live, env, base, a, c), Advance(dry, env', base', b, c);
            && SameScript(a'.trials, b'.trials) && LastError(b') == ""
            && (LastError(a') == "" && |a'.kept| == |a.kept| ==> SameView(a'.knobs, b'.knobs))
  {
    Books.TrialVerdict(live, env, base, a, c);
    var t, t' := RunTrial(live, env, base, a, c).trial, RunTrial(dry, env', base', b, c).trial;
    assert ChangeOf(t) == c && ChangeOf(t') == c;
    SnocScript(a.trials, t, b.trials, t');
    if t.error == "" && !t.kept {
      UnkeptKeepsView(live, env, base, a, c);
    }
  }

  /** The reason a preview is about: the space or the experiment budget ran out. */
  predicate RanOut(f: Finish) {
    (f.reason == StopExhausted || f.reason == StopExperiments) && LastError(f.state) == ""
  }

  /** Change by change as far as both go, and to the same end if neither was cut off. */
  ghost predicate Previews(f: Finish, g: Finish) {
    && SameUpTo(f.state.trials, g.state.trials, Min(|f.state.trials|, |g.state.trials|))
    && (RanOut(f) && RanOut(g) ==> f.reason == g.reason && SameScript(f.state.trials, g.state.trials))
  }

  /** Two states a dry and a live run have reached by the same changes. */
  ghost predicate InStep(a: RunState, b: RunState) {
    SameView(a.knobs, b.knobs) && SameScript(a.trials, b.trials)
  }

  /** A run that stops where the other is still in step has previewed it. */
  lemma OneStopped(f: Finish, g: Finish, a: seq<Trial>, b: seq<Trial>)
    requires SameScript(a, b) && a <= f.state.trials && b <= g.state.trials
    requires f.state.trials == a || g.state.trials == b
    requires RanOut(f) && RanOut(g) ==> f.reason == g.reason && f.state.trials == a && g.state.trials == b
    ensures Previews(f, g)
  {
    PrefixScript(a, b, f.state.trials, g.state.trials);
  }

  predicate SpentOrSwept(d: Decision) {
    d == Halt(StopExhausted) || d == Halt(StopExperiments)
  }

  /** A halt for another reason. */
  predicate HaltsElse(d: Decision) { d.Halt? && !SpentOrSwept(d) }

  /** Equal proposals make equal decisions when nothing but the space or the cap decides. */
  lemma HeadsAgree(live: Options, env: Env, a: RunState, dry: Options, env': Env, b: RunState, o: Orders)
    requires o.Valid() && ProposesDet(env, o) && ProposesDet(env', o) && InStep(a, b)
    requires live.budget.maxExperiments == dry.budget.maxExperiments
    ensures Head(live, env, a).Try? && Head(dry, env', b).Try? ==> Head(live, env, a) == Head(dry, env', b)
    ensures SpentOrSwept(Head(live, env, a)) ==>
              Head(dry, env', b) == Head(live, env, a) || HaltsElse(Head(dry, env', b))
    ensures SpentOrSwept(Head(dry, env', b)) ==>
              Head(dry, env', b) == Head(live, env, a) || HaltsElse(Head(live, env, a))
  {
    SameProposal(env, a, env', b, o);
    HeadCases(live, env, a, dry, env', b, DetPropose(o, a.knobs, a.trials));
  }

  ghost predicate ProposesOrStops(env: Env, st: RunState, p: Proposal) {
    env.propose(st.knobs, st.trials) == p || env.propose(st.knobs, st.trials) == Canceled
  }

  lemma SameProposal(env: Env, a: RunState, env': Env, b: RunState, o: Orders)
    requires o.Valid() && ProposesDet(env, o) && ProposesDet(env', o) && InStep(a, b)
    ensures ProposesOrStops(env, a, DetPropose(o, a.knobs, a.trials))
    ensures ProposesOrStops(env', b, DetPropose(o, a.knobs, a.trials))
  {
    DetProposeAlike(o, a.knobs, a.trials, b.knobs, b.trials);
  }

  lemma HeadCases(live: Options, env: Env, a: RunState, dry: Options, env': Env, b: RunState, p: Proposal)
    requires |a.trials| == |b.trials| && live.budget.maxExperiments == dry.budget.maxExperiments
    requires ProposesOrStops(env, a, p) && ProposesOrStops(env', b, p)
    ensures Head(live, env, a).Try? && Head(dry, env', b).Try? ==> Head(live, env, a) == Head(dry, env', b)
    ensures SpentOrSwept(Head(live, env, a)) ==>
              Head(dry, env', b) == Head(live, env, a) || HaltsElse(Head(dry, env', b))
    ensures SpentOrSwept(Head(dry, env', b)) ==>
              Head(dry, env', b) == Head(live, env, a) || HaltsElse(Head(live, env, a))
  {
  }

  /** One loop pass. */
  lemma LoopOnce(opts: Options, env: Env, base: Score, st: RunState)
    ensures Head(opts, env, st).Halt? ==> Loop(opts, env, base, st) == Finish(st, Head(opts, env, st).reason)
    ensures Head(opts, env, st).Try? ==>
              var st' := Advance(opts, env, base, st, Head(opts, env, st).change);
              Loop(opts, env, base, st)
              == if LastError(st') != "" then Finish(st', ErrorStop(env, st')) else Loop(opts, env, base, st')
  {
  }

  /** A run that halts at once, whether live or dry. */
  lemma HaltPreviews(live: Options, env: Env, base: Score, a: RunState,
                     dry: Options, env': Env, base': Score, b: RunState, o: Orders)
    requires o.Valid() && ProposesDet(env, o) && ProposesDet(env', o) && InStep(a, b)
    requires live.budget.maxExperiments == dry.budget.maxExperiments
    requires Head(live, env, a).Halt? || Head(dry, env', b).Halt?
    ensures Previews(Loop(live, env, base, a), Loop(dry, env', base', b))
  {
    var f, g := Loop(live, env, base, a), Loop(dry, env', base', b);
    HeadsAgree(live, env, a, dry, env', b, o);
    LoopOnce(live, env, base, a);
    LoopOnce(dry, env', base', b);
    LoopExtends(live, env, base, a);
    LoopExtends(dry, env', base', b);
    OneStopped(f, g, a.trials, b.trials);
  }

  /** Two runs of the deterministic proposer in step, one dry and one live that is honest about
      Before and keeps nothing, propose alike: change by change as far as both go, and when
      neither is cut off by clock, tokens, cancellation or an error, to the same end. */
  lemma {:induction false} DryRunPredicts(live: Options, env: Env, base: Score, a: RunState,
                                          dry: Options, env': Env, base': Score, b: RunState, o: Orders)
    requires o.Valid() && ProposesDet(env, o) && ProposesDet(env', o) && InStep(a, b)
    requires dry.dryRun && live.budget.maxExperiments == dry.budget.maxExperiments
    requires LastError(a) == "" && HonestFrom(live, env, base, a)
    requires |Loop(live, env, base, a).state.kept| == |a.kept|
    ensures Previews(Loop(live, env, base, a), Loop(dry, env', base', b))
    decreases live.budget.maxExperiments - |a.trials|
  {
    if Head(live, env, a).Halt? || Head(dry, env', b).Halt? {
      HaltPreviews(live, env, base, a, dry, env', base', b, o);
    } else {
      var c := Head(live, env, a).change;
      var a', b' := Advance(live, env, base, a, c), Advance(dry, env', base', b, c);
      NextInStep(live, env, base, a, dry, env', base', b, o);
      LoopOnce(live, env, base, a);
      LoopOnce(dry, env', base', b);
      Books.HeadWithinBudget(live, env, a);
      if LastError(a') == "" {
        LoopExtends(live, env, base, a');
        HonestNext(live, env, base, a, a');
        DryRunPredicts(live, env, base, a', dry, env', base', b', o);
      } else {
        LoopExtends(dry, env', base', b');
        OneStopped(Loop(live, env, base, a), Loop(dry, env', base', b'), a'.trials, b'.trials);
      }
    }
  }

  lemma NextInStep(live: Options, env: Env, base: Score, a: RunState,
                   dry: Options, env': Env, base': Score, b: RunState, o: Orders)
    requires o.Valid() && ProposesDet(env, o) && ProposesDet(env', o) && InStep(a, b) && dry.dryRun
    requires live.budget.maxExperiments == dry.budget.maxExperiments && HonestFrom(live, env, base, a)
    requires Head(live, env, a).Try? && Head(dry, env', b).Try?
    ensures var c := Head(live, env, a).change;
            var a', b' := Advance(live, env, base, a, c), Advance(dry, env', base', b, c);
            && Head(dry, env', b) == Try(c) && LastError(b') == ""
            && SameScript(a'.trials, b'.trials)
            && (LastError(a') == "" && |a'.kept| == |a.kept| ==> InStep(a', b'))
  {
    HeadsAgree(live, env, a, dry, env', b, o);
    SameProposal(env, a, env', b, o);
    HonestNow(live, env, base, a);
    var c := Head(live, env, a).change;
    assert Lookup(a.knobs, c.knobID).Some? by {
      var i :| 0 <= i < |a.knobs| && Chosen(o, a.knobs, a.trials, i, c);
    }
    PreviewStep(live, env, base, a, dry, env', base', b, c);
  }
}
