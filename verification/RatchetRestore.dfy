/** What every trial leaves behind: the disk is the start with the kept changes applied in
    order, and the surface in memory agrees with it. */
module RatchetRestore {
  import opened Text
  import opened Disk
  import opened Surface
  import opened Guards
  import opened Ratchet
  import opened Agreement
  import Snap = Snapshot

  ghost predicate RestoresWork(env: Env) {
    forall n :: env.faults(n).restore.None?
  }

  /** Everything about a knob that no trial changes. */
  function Fixed(k: Knob): Knob { k.(value := "", inFile := false) }

  function Shape(knobs: seq<Knob>): seq<Knob> { Map(Fixed, knobs) }

  ghost predicate ProjectFiles(knobs: seq<Knob>) {
    forall i :: 0 <= i < |knobs| ==> knobs[i].file.Project?
  }

  // ---- Apply looks only at the shape --------------------------------------

  lemma ShapeAt(a: seq<Knob>, b: seq<Knob>, i: nat)
    requires Shape(a) == Shape(b) && i < |a|
    ensures |a| == |b| && Fixed(a[i]) == Fixed(b[i])
  {
    assert |Shape(a)| == |a| && |Shape(b)| == |b|;
    assert Shape(a)[i] == Fixed(a[i]) && Shape(b)[i] == Fixed(b[i]);
  }

  lemma LookupUnique(knobs: seq<Knob>, id: string, i: nat)
    requires i < |knobs| && knobs[i].id == id && forall j :: i < j < |knobs| ==> knobs[j].id != id
    ensures Lookup(knobs, id) == Some(i)
  {
  }

  lemma LookupShape(a: seq<Knob>, b: seq<Knob>, id: string)
    requires Shape(a) == Shape(b)
    ensures Lookup(a, id) == Lookup(b, id)
  {
    assert |Shape(a)| == |a| && |Shape(b)| == |b|;
    forall j | 0 <= j < |a| ensures a[j].id == b[j].id {
      ShapeAt(a, b, j);
    }
    var i := Lookup(a, id);
    if i.Some? {
      LookupUnique(b, id, i.value);
    }
  }

  lemma ShapeUpdate(knobs: seq<Knob>, i: nat, v: string, inFile: bool)
    requires i < |knobs|
    ensures Shape(knobs[i := knobs[i].(value := v, inFile := inFile)]) == Shape(knobs)
  {
  }

  /** Two surfaces of one shape apply a change to the same disk. */
  lemma ApplyShape(a: seq<Knob>, b: seq<Knob>, disk: Files, c: Change, fault: Option<string>)
    requires Shape(a) == Shape(b)
    ensures Apply(a, disk, c, fault).Written? == Apply(b, disk, c, fault).Written?
    ensures Apply(a, disk, c, fault).Written? ==> Apply(a, disk, c, fault).disk == Apply(b, disk, c, fault).disk
  {
    LookupShape(a, b, c.knobID);
    var at := Lookup(a, c.knobID);
    if at.Some? {
      ShapeAt(a, b, at.value);
      SameKnobApplies(a, b, at.value, disk, c, fault);
    }
  }

  lemma ApplyKeepsShape(knobs: seq<Knob>, disk: Files, c: Change, fault: Option<string>)
    requires Apply(knobs, disk, c, fault).Written?
    ensures Shape(Apply(knobs, disk, c, fault).knobs) == Shape(knobs)
  {
    var at := Lookup(knobs, c.knobID).value;
    ShapeUpdate(knobs, at, knobs[at].domain.Normalize(c.after), true);
  }

  lemma SameKnobApplies(a: seq<Knob>, b: seq<Knob>, i: nat, disk: Files, c: Change, fault: Option<string>)
    requires i < |a| == |b| && Lookup(a, c.knobID) == Lookup(b, c.knobID) == Some(i)
    requires Fixed(a[i]) == Fixed(b[i])
    ensures Apply(a, disk, c, fault).Written? == Apply(b, disk, c, fault).Written?
    ensures Apply(a, disk, c, fault).Written? ==> Apply(a, disk, c, fault).disk == Apply(b, disk, c, fault).disk
  {
    assert a[i].domain == b[i].domain && a[i].file == b[i].file;
    assert a[i].field == b[i].field && a[i].source == b[i].source;
  }

  lemma SetValueShape(knobs: seq<Knob>, id: string, v: string)
    ensures Shape(SetValue(knobs, id, v)) == Shape(knobs)
  {
    var at := Lookup(knobs, id);
    if at.Some? {
      ShapeUpdate(knobs, at.value, v, knobs[at.value].inFile);
    }
  }

  lemma TrialShape(opts: Options, env: Env, base: Score, st: RunState, c: Change)
    ensures Shape(RunTrial(opts, env, base, st, c).knobs) == Shape(st.knobs)
  {
    var effect, applied := TrialCases(opts, env, base, st, c);
    if effect != Untouched {
      ApplyKeepsShape(st.knobs, st.disk, c, env.faults(|st.trials|).write);
      SetValueShape(applied.knobs, c.knobID, c.before);
    }
  }

  /** No trial adds, drops or reorders a knob, or changes its id, file, field or domain. */
  lemma {:induction false} ExecutionShape(opts: Options, env: Env, base: Score, start: RunState, sts: seq<RunState>)
    requires Execution(opts, env, base, start, sts)
    ensures Shape(sts[|sts| - 1].knobs) == Shape(start.knobs)
  {
    if |sts| > 1 {
      ExecutionPrefix(opts, env, base, start, sts);
      ExecutionShape(opts, env, base, start, sts[..|sts| - 1]);
      var a := sts[|sts| - 2];
      TrialShape(opts, env, base, a, Head(opts, env, a).change);
    }
  }

  lemma ProjectFilesShape(a: seq<Knob>, b: seq<Knob>)
    requires Shape(a) == Shape(b) && ProjectFiles(a)
    ensures ProjectFiles(b)
  {
    forall i | 0 <= i < |b| ensures b[i].file.Project? {
      ShapeAt(b, a, i);
    }
  }

  // ---- one trial -----------------------------------------------------------

  lemma RevertsRestore(opts: Options, env: Env, base: Score, st: RunState, c: Change)
    requires TrialEffect(opts, env, base, st, c) == Reverts && ProjectFiles(st.knobs)
    ensures RunTrial(opts, env, base, st, c).disk == st.disk
  {
    var _, applied := TrialCases(opts, env, base, st, c);
    var file := st.knobs[Lookup(st.knobs, c.knobID).value].file;
    AppliedDiffersAt(st.knobs, st.disk, c, env.faults(|st.trials|).write);
    Snap.CaptureRestore(st.disk, [file], applied.disk);
  }

  lemma AppliedDiffersAt(knobs: seq<Knob>, disk: Files, c: Change, fault: Option<string>)
    requires Apply(knobs, disk, c, fault).Written?
    ensures Snap.DiffersOnlyAt(Apply(knobs, disk, c, fault).disk, disk, [knobs[Lookup(knobs, c.knobID).value].file])
  {
  }

  /** Whatever the evaluator did, a trial that is not kept leaves the disk as it found it. */
  lemma UnkeptTrialRestores(opts: Options, env: Env, base: Score, st: RunState, c: Change)
    requires env.faults(|st.trials|).restore.None? && ProjectFiles(st.knobs)
    requires !RunTrial(opts, env, base, st, c).trial.kept
    ensures RunTrial(opts, env, base, st, c).disk == st.disk
  {
    var effect, _ := TrialCases(opts, env, base, st, c);
    if effect == Reverts {
      RevertsRestore(opts, env, base, st, c);
    }
  }

  /** A kept trial is exactly one successful Apply. */
  lemma KeptTrialApplies(opts: Options, env: Env, base: Score, st: RunState, c: Change)
    requires RunTrial(opts, env, base, st, c).trial.kept
    ensures !opts.dryRun
    ensures Apply(st.knobs, st.disk, c, None).Written?
    ensures RunTrial(opts, env, base, st, c).disk == Apply(st.knobs, st.disk, c, None).disk
    ensures RunTrial(opts, env, base, st, c).knobs == Apply(st.knobs, st.disk, c, None).knobs
  {
    var _, applied := TrialCases(opts, env, base, st, c);
    FaultFreeApply(st.knobs, st.disk, c, env.faults(|st.trials|).write);
  }

  /** A write that went through is the write a fault-free disk would have made. */
  lemma FaultFreeApply(knobs: seq<Knob>, disk: Files, c: Change, fault: Option<string>)
    requires Apply(knobs, disk, c, fault).Written?
    ensures Apply(knobs, disk, c, None) == Apply(knobs, disk, c, fault)
  {
  }

  // ---- the disk is the replay of the kept changes --------------------------

  /** The start with a list of changes applied in order. */
  function Replay(knobs: seq<Knob>, disk: Files, changes: seq<Change>): Files {
    if changes == [] then disk
    else
      var before := Replay(knobs, disk, changes[..|changes| - 1]);
      var applied := Apply(knobs, before, changes[|changes| - 1], None);
      if applied.Written? then applied.disk else before
  }

  lemma TrialReplays(opts: Options, env: Env, base: Score, start: RunState, st: RunState, c: Change)
    requires env.faults(|st.trials|).restore.None? && ProjectFiles(start.knobs) && Shape(st.knobs) == Shape(start.knobs)
    requires st.disk == Replay(start.knobs, start.disk, st.kept)
    ensures var next := Advance(opts, env, base, st, c);
            next.disk == Replay(start.knobs, start.disk, next.kept)
  {
    ProjectFilesShape(start.knobs, st.knobs);
    if RunTrial(opts, env, base, st, c).trial.kept {
      KeptTrialApplies(opts, env, base, st, c);
      ReplaySnoc(start, st, c);
    } else {
      UnkeptTrialRestores(opts, env, base, st, c);
    }
  }

  lemma ReplaySnoc(start: RunState, st: RunState, c: Change)
    requires Shape(st.knobs) == Shape(start.knobs) && st.disk == Replay(start.knobs, start.disk, st.kept)
    requires Apply(st.knobs, st.disk, c, None).Written?
    ensures Replay(start.knobs, start.disk, st.kept + [c]) == Apply(st.knobs, st.disk, c, None).disk
  {
    ApplyShape(st.knobs, start.knobs, st.disk, c, None);
    assert (st.kept + [c])[..|st.kept|] == st.kept;
  }

  /** In every state of every live run, whatever mix of scores, errors, panics and
      cancellations occurred and whoever proposed, the disk is exactly the start with the
      kept changes applied in order. */
  lemma {:induction false} DiskIsReplayOfKept(opts: Options, env: Env, base: Score, start: RunState, sts: seq<RunState>)
    requires Execution(opts, env, base, start, sts) && start.kept == []
    requires RestoresWork(env) && ProjectFiles(start.knobs)
    ensures sts[|sts| - 1].disk == Replay(start.knobs, start.disk, sts[|sts| - 1].kept)
  {
    if |sts| > 1 {
      var front, a := sts[..|sts| - 1], sts[|sts| - 2];
      ExecutionPrefix(opts, env, base, start, sts);
      DiskIsReplayOfKept(opts, env, base, start, front);
      ExecutionShape(opts, env, base, start, front);
      TrialReplays(opts, env, base, start, a, Head(opts, env, a).change);
    }
  }

  // ---- agreement -----------------------------------------------------------

  /** The proposer's side of the bargain: Before is what the surface holds now. */
  ghost predicate HonestAt(opts: Options, env: Env, st: RunState) {
    Head(opts, env, st).Try? ==>
      var c := Head(opts, env, st).change;
      Lookup(st.knobs, c.knobID).Some? ==> c.before == CurrentValue(st.knobs, c.knobID)
  }

  lemma ValuesUpdate(knobs: seq<Knob>, i: nat, k: Knob)
    requires i < |knobs|
    ensures Values(knobs[i := k]) == Values(knobs)[i := Forget(k)]
  {
  }

  /** Apply followed by SetValue(before) puts the surface's values back exactly when before
      is the value the surface held. */
  lemma RevertValues(knobs: seq<Knob>, disk: Files, c: Change, fault: Option<string>)
    requires Apply(knobs, disk, c, fault).Written?
    ensures Values(SetValue(Apply(knobs, disk, c, fault).knobs, c.knobID, c.before)) == Values(knobs)
       <==> c.before == CurrentValue(knobs, c.knobID)
  {
    var at := Lookup(knobs, c.knobID).value;
    var k := knobs[at];
    var k' := k.(value := k.domain.Normalize(c.after), inFile := true);
    LookupUpdate(knobs, at, k', c.knobID);
    ValuesUpdate(knobs, at, k');
    ValuesUpdate(knobs[at := k'], at, k'.(value := c.before));
    SeqUpdateTwice(Values(knobs), at, Forget(k'), Forget(k.(value := c.before)));
    assert Values(knobs)[at] == Forget(k);
  }

  lemma SeqUpdateTwice(s: seq<Knob>, i: nat, a: Knob, b: Knob)
    requires i < |s|
    ensures s[i := a][i := b] == s[i := b]
    ensures s[i := b] == s <==> s[i] == b
  {
  }

  lemma AgreesByValues(layout: Layout, disk: Files, a: seq<Knob>, b: seq<Knob>)
    requires Agrees(layout, disk, a)
    ensures Agrees(layout, disk, b) <==> Values(b) == Values(a)
  {
  }

  /** After a reverted trial, surface and disk agree if and only if the proposal's Before was
      the surface's current value: an arbitrary Before really does break agreement. */
  lemma RevertAgreesIff(opts: Options, env: Env, base: Score, layout: Layout, st: RunState, c: Change)
    requires Agrees(layout, st.disk, st.knobs) && ProjectFiles(st.knobs)
    requires TrialEffect(opts, env, base, st, c) == Reverts
    ensures var r := RunTrial(opts, env, base, st, c);
            Agrees(layout, r.disk, r.knobs) <==> c.before == CurrentValue(st.knobs, c.knobID)
  {
    var _, applied := TrialCases(opts, env, base, st, c);
    UnkeptTrialRestores(opts, env, base, st, c);
    RevertValues(st.knobs, st.disk, c, env.faults(|st.trials|).write);
    AgreesByValues(layout, st.disk, st.knobs, RunTrial(opts, env, base, st, c).knobs);
  }

  lemma TrialAgrees(opts: Options, env: Env, base: Score, layout: Layout, st: RunState, c: Change)
    requires Separate(layout) && Agrees(layout, st.disk, st.knobs) && ProjectFiles(st.knobs)
    requires Lookup(st.knobs, c.knobID).Some? ==> c.before == CurrentValue(st.knobs, c.knobID)
    ensures var r := RunTrial(opts, env, base, st, c); Agrees(layout, r.disk, r.knobs)
  {
    var effect, applied := TrialCases(opts, env, base, st, c);
    match effect {
      case Untouched =>
      case Stays => ApplyAgrees(st.disk, layout, st.knobs, c, env.faults(|st.trials|).write);
      case Reverts => RevertAgreesIff(opts, env, base, layout, st, c);
    }
  }

  lemma ReflectedFilesAreProject(disk: Files, layout: Layout)
    requires Separate(layout)
    ensures ProjectFiles(Reflect(disk, layout))
  {
    AgentPaths(layout);
    forall i | 0 <= i < |Reflect(disk, layout)| ensures Reflect(disk, layout)[i].file.Project? {
      ReflectSound(disk, layout, Reflect(disk, layout)[i]);
    }
  }

  /** Snapshot files are invisible to Reflect. */
  lemma ReflectIgnoresSnapshot(a: Files, b: Files, layout: Layout)
    requires Separate(layout) && Snap.SameProject(a, b)
    ensures Reflect(a, layout) == Reflect(b, layout)
  {
    AgentPaths(layout);
    var agents := FirstAgents(layout);
    forall i | 0 <= i < |agents| ensures Load(a, agents[i].path) == Load(b, agents[i].path) {
      assert Snap.SameAt(a, b, agents[i].path);
    }
    AgentKnobsUnchanged(a, b, agents);
    assert Snap.SameAt(a, b, layout.config);
  }

  /** Starting from a freshly reflected project, and with every proposal honest about Before,
      re-running Reflect on the disk of any state gives the in-memory values. It even holds
      when a restore fails: the file then keeps the value the surface still shows. */
  lemma {:induction false} SurfaceAgrees(opts: Options, env: Env, base: Score, layout: Layout,
                                         start: RunState, sts: seq<RunState>)
    requires Execution(opts, env, base, start, sts)
    requires Separate(layout) && start.knobs == Reflect(start.disk, layout)
    requires forall i :: 0 <= i < |sts| - 1 ==> HonestAt(opts, env, sts[i])
    ensures Agrees(layout, sts[|sts| - 1].disk, sts[|sts| - 1].knobs)
  {
    if |sts| > 1 {
      var front := sts[..|sts| - 1];
      ExecutionPrefix(opts, env, base, start, sts);
      SurfaceAgrees(opts, env, base, layout, start, front);
      ExecutionShape(opts, env, base, start, front);
      var a := sts[|sts| - 2];
      ReflectedFilesAreProject(start.disk, layout);
      ProjectFilesShape(start.knobs, a.knobs);
      assert HonestAt(opts, env, a);
      TrialAgrees(opts, env, base, layout, a, Head(opts, env, a).change);
    }
  }
}
