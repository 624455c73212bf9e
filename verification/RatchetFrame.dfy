/** What a run may touch, in every disk state it passes through, and why that makes the
    durable snapshot a complete undo. No assumption on proposer, evaluator or faults. */
module RatchetFrame {
  import opened Text
  import opened Domains
  import opened Whitelist
  import opened YamlEdit
  import opened Disk
  import opened Surface
  import opened Guards
  import opened Membership
  import opened Ratchet
  import opened RatchetRestore
  import Agreement
  import Ordering
  import Snap = Snapshot

  /** The fields the surface may write in one file. */
  function KeysAt(knobs: seq<Knob>, p: Path): set<string> {
    set k | k in knobs && k.file == p :: k.field
  }

  /** Agent knobs live in agent files under spec(), config knobs in the config file, and no two
      knobs share a place. */
  ghost predicate Placed(layout: Layout, knobs: seq<Knob>) {
    && (forall k :: k in knobs ==> k.file.Project? && (k.source == Agent <==> k.file != layout.config))
    && (forall k :: k in knobs && k.source == Agent ==> k.field != "spec")
    && (forall k :: k in knobs && k.source == Config ==> k.field in CONFIG_KEYS && k.field !in SENSITIVE)
    && (forall i, j :: 0 <= i < j < |knobs| ==> !(knobs[i].file == knobs[j].file && knobs[i].field == knobs[j].field))
  }

  lemma ReflectPlaced(disk: Files, layout: Layout)
    requires Separate(layout)
    ensures Placed(layout, Reflect(disk, layout))
  {
    var knobs := Reflect(disk, layout);
    Agreement.AgentPaths(layout);
    forall k | k in knobs
      ensures k.file.Project? && (k.source == Agent <==> k.file != layout.config)
      ensures k.source == Agent ==> k.field != "spec"
      ensures k.source == Config ==> k.field in CONFIG_KEYS && k.field !in SENSITIVE
    {
      Agreement.ReflectSound(disk, layout, k);
      Agreement.SoundMayWrite(disk, layout, k);
    }
    forall i, j | 0 <= i < j < |knobs|
      ensures !(knobs[i].file == knobs[j].file && knobs[i].field == knobs[j].field)
    {
      Agreement.PlacesDiffer(disk, layout, knobs, i, j);
    }
  }

  // ---- the frame -----------------------------------------------------------

  /** One file, compared with the start of the run: untouched, or a document in which only
      surface fields of the addressed mapping were rewritten or appended. */
  ghost predicate FileFramed(layout: Layout, knobs: seq<Knob>, start: Files, d: Files, p: Path) {
    SameAtPath(d, start, p)
    || ( && p in FileSet(knobs) && Load(start, p).Some? && p in d && d[p].Document?
         && RootEditedWithin(Load(start, p).value, d[p].root, p != layout.config, KeysAt(knobs, p)))
  }

  predicate SameAtPath(a: Files, b: Files, p: Path) { Snap.SameAt(a, b, p) }

  ghost predicate Framed(layout: Layout, knobs: seq<Knob>, start: Files, d: Files) {
    forall p :: FileFramed(layout, knobs, start, d, p)
  }

  /** What stands at a knob's place. */
  function RawAt(d: Files, k: Knob): Option<string> {
    var root := Load(d, k.file);
    if root.None? then None else ScalarString(Target(root.value, k.source == Agent), k.field)
  }

  /** Every value a run writes is inside the bounds of its knob. */
  ghost predicate InDomains(knobs: seq<Knob>, start: Files, d: Files) {
    forall k :: k in knobs ==>
      RawAt(d, k) == RawAt(start, k) || (RawAt(d, k).Some? && InBounds(k.domain, RawAt(d, k).value))
  }

  lemma ReflectedPrompts(disk: Files, layout: Layout, k: Knob)
    requires k in Reflect(disk, layout) && k.domain.kind == KnobText
    ensures TextLimit(k.domain) == 8000
  {
    Agreement.ReflectedWereFound(disk, layout, k);
    Ordering.FoundIff(disk, layout, k);
    if Ordering.FromConfig(disk, layout, ConfigFields(), k) {
      var f := FieldOfConfigKnob(disk, layout, ConfigFields(), k);
      ConfigDomains(f);
    } else {
      OnlyPrompt(AgentFields(), Field(k.field, k.domain));
    }
  }

  lemma FieldOfConfigKnob(disk: Files, layout: Layout, fields: seq<Field>, k: Knob) returns (f: Field)
    requires Ordering.FromConfig(disk, layout, fields, k)
    ensures f in fields && k.domain.kind == f.domain.kind
  {
    f :| f in fields && IsWhitelisted(f.key) && k.field == f.key
         && k.domain == ScaleDomain(f.key, f.domain, layout.window);
  }

  lemma OnlyPrompt(fields: seq<Field>, f: Field)
    requires fields == AgentFields() && f in fields && f.domain.kind == KnobText
    ensures f.domain.maxLen == 8000
  {
  }

  lemma KeysAtWritten(layout: Layout, knobs: seq<Knob>, k: Knob)
    requires Placed(layout, knobs) && k in knobs
    ensures k.field in KeysAt(knobs, k.file)
    ensures k.file != layout.config ==> "spec" !in KeysAt(knobs, k.file)
    ensures k.source == Agent <==> k.file != layout.config
  {
  }

  /** One edit at one knob stays inside the frame. */
  lemma EditFramed(layout: Layout, knobs: seq<Knob>, start: Files, d: Files, k: Knob, v: string)
    requires Placed(layout, knobs) && k in knobs && Framed(layout, knobs, start, d) && Load(d, k.file).Some?
    ensures Framed(layout, knobs, start, Agreement.AfterEdit(d, k, v))
  {
    var d' := Agreement.AfterEdit(d, k, v);
    var keys, nested := KeysAt(knobs, k.file), k.file != layout.config;
    KeysAtWritten(layout, knobs, k);
    forall p ensures FileFramed(layout, knobs, start, d', p) {
      assert FileFramed(layout, knobs, start, d, p);
      if p == k.file {
        var root := Load(d, p).value;
        EditStaysWithin(root, nested, k.field, ScalarNode(v, k.domain.kind), keys);
        if SameAtPath(d, start, p) {
          assert Load(start, p) == Load(d, p);
        } else {
          RootEditedWithinTransitive(Load(start, p).value, root, d'[p].root, nested, keys);
        }
      }
    }
  }

  lemma EditReads(root: seq<Entry>, nested: bool, key: string, v: string, kind: Kind, other: string)
    requires nested ==> key != "spec"
    ensures ScalarString(Target(Edit(root, nested, key, ScalarNode(v, kind)), nested), other)
         == if other == key then Some(v) else ScalarString(Target(root, nested), other)
  {
    EditTarget(root, nested, key, ScalarNode(v, kind));
    Agreement.PutScalar(Target(root, nested), key, v, kind, other);
  }

  lemma EditReadsAt(layout: Layout, knobs: seq<Knob>, d: Files, i: nat, j: nat, k: Knob, v: string)
    requires Placed(layout, knobs) && i < |knobs| && j < |knobs| && Fixed(k) == Fixed(knobs[i])
    requires Load(d, k.file).Some?
    ensures RawAt(Agreement.AfterEdit(d, k, v), knobs[j]) == if j == i then Some(v) else RawAt(d, knobs[j])
  {
    KeysAtWritten(layout, knobs, knobs[i]);
    KeysAtWritten(layout, knobs, knobs[j]);
    assert k.file == knobs[i].file && k.field == knobs[i].field && k.source == knobs[i].source;
    var d' := Agreement.AfterEdit(d, k, v);
    if knobs[j].file == k.file {
      assert Load(d', k.file) == Some(EditFor(Load(d, k.file).value, k, v));
      EditReads(Load(d, k.file).value, k.source == Agent, k.field, v, k.domain.kind, knobs[j].field);
    } else {
      assert Load(d', knobs[j].file) == Load(d, knobs[j].file);
    }
  }

  lemma EditInDomains(layout: Layout, knobs: seq<Knob>, start: Files, d: Files, i: nat, k: Knob, v: string)
    requires Placed(layout, knobs) && i < |knobs| && Fixed(k) == Fixed(knobs[i])
    requires InDomains(knobs, start, d) && Load(d, k.file).Some? && InBounds(k.domain, v)
    ensures InDomains(knobs, start, Agreement.AfterEdit(d, k, v))
  {
    var d' := Agreement.AfterEdit(d, k, v);
    assert k.domain == knobs[i].domain;
    forall x | x in knobs
      ensures RawAt(d', x) == RawAt(start, x) || (RawAt(d', x).Some? && InBounds(x.domain, RawAt(d', x).value))
    {
      var j :| 0 <= j < |knobs| && knobs[j] == x;
      EditReadsAt(layout, knobs, d, i, j, k, v);
    }
  }

  /** Both halves of the frame. */
  ghost predicate Contained(layout: Layout, knobs: seq<Knob>, start: Files, d: Files) {
    Framed(layout, knobs, start, d) && InDomains(knobs, start, d)
  }

  lemma StartContained(layout: Layout, knobs: seq<Knob>, start: Files)
    ensures Contained(layout, knobs, start, start)
  {
    forall p ensures FileFramed(layout, knobs, start, start, p) {
      assert SameAtPath(start, start, p);
    }
  }

  /** A written change is an edit at its knob with an allowed value. */
  lemma WrittenIsEdit(knobs: seq<Knob>, d: Files, c: Change, fault: Option<string>) returns (at: nat, v: string)
    requires Apply(knobs, d, c, fault).Written?
    ensures Lookup(knobs, c.knobID) == Some(at)
    ensures Load(d, knobs[at].file).Some? && knobs[at].domain.Allows(v) && v == knobs[at].domain.Normalize(c.after)
    ensures Apply(knobs, d, c, fault).disk == Agreement.AfterEdit(d, knobs[at], v)
  {
    at := Lookup(knobs, c.knobID).value;
    v := knobs[at].domain.Normalize(c.after);
  }

  lemma AfterEditShape(d: Files, a: Knob, b: Knob, v: string)
    requires Fixed(a) == Fixed(b) && Load(d, a.file).Some?
    ensures Agreement.AfterEdit(d, a, v) == Agreement.AfterEdit(d, b, v)
  {
    assert a.file == b.file && a.source == b.source && a.field == b.field && a.domain == b.domain;
  }

  /** Whatever is proposed, a successful Apply stays contained. */
  lemma ApplyContained(layout: Layout, start: RunState, knobs: seq<Knob>, d: Files, c: Change, fault: Option<string>)
    requires Placed(layout, start.knobs) && Shape(knobs) == Shape(start.knobs)
    requires Contained(layout, start.knobs, start.disk, d) && Apply(knobs, d, c, fault).Written?
    ensures Contained(layout, start.knobs, start.disk, Apply(knobs, d, c, fault).disk)
  {
    var at, v := WrittenIsEdit(knobs, d, c, fault);
    ShapeAt(knobs, start.knobs, at);
    AfterEditShape(d, knobs[at], start.knobs[at], v);
    EditFramed(layout, start.knobs, start.disk, d, start.knobs[at], v);
    AllowsIff(knobs[at].domain, v);
    EditInDomains(layout, start.knobs, start.disk, d, at, knobs[at], v);
  }

  lemma RevertedDisk(opts: Options, env: Env, base: Score, start: RunState, st: RunState, c: Change)
    requires (forall k :: k in start.knobs ==> k.file.Project?) && Shape(st.knobs) == Shape(start.knobs)
    requires TrialEffect(opts, env, base, st, c) == Reverts
    ensures RunTrial(opts, env, base, st, c).disk == st.disk
  {
    ProjectFilesShape(start.knobs, st.knobs);
    RevertsRestore(opts, env, base, st, c);
  }

  /** The disk a trial ends in is contained. */
  lemma TrialContained(opts: Options, env: Env, base: Score, layout: Layout, start: RunState, st: RunState, c: Change)
    requires Placed(layout, start.knobs) && Shape(st.knobs) == Shape(start.knobs)
    requires Contained(layout, start.knobs, start.disk, st.disk)
    ensures Contained(layout, start.knobs, start.disk, RunTrial(opts, env, base, st, c).disk)
  {
    var effect, applied := TrialCases(opts, env, base, st, c);
    match effect {
      case Untouched =>
      case Stays => ApplyContained(layout, start, st.knobs, st.disk, c, env.faults(|st.trials|).write);
      case Reverts => RevertedDisk(opts, env, base, start, st, c);
    }
  }

  /** Allow-list frame: in every state of every run, no file outside Files() differs from the
      start, files of the surface differ only in surface fields with every other entry in
      place, and every value written is inside its knob's bounds. */
  lemma {:induction false} RunContained(opts: Options, env: Env, base: Score, layout: Layout,
                                        start: RunState, sts: seq<RunState>)
    requires Execution(opts, env, base, start, sts) && Placed(layout, start.knobs)
    ensures Contained(layout, start.knobs, start.disk, sts[|sts| - 1].disk)
  {
    if |sts| == 1 {
      StartContained(layout, start.knobs, start.disk);
    } else {
      var a := sts[|sts| - 2];
      ExecutionPrefix(opts, env, base, start, sts);
      ExecutionShape(opts, env, base, start, sts[..|sts| - 1]);
      RunContained(opts, env, base, layout, start, sts[..|sts| - 1]);
      TrialContained(opts, env, base, layout, start, a, Head(opts, env, a).change);
    }
  }

  /** What that says of one knob of a reflected surface: if its place reads otherwise than at the start,
      an integer lies between min and max, a switch or mode is on its list, and a prompt is not blank
      and has at most 8000 bytes. */
  lemma WrittenWithin(layout: Layout, start: RunState, d: Files, k: Knob)
    requires Contained(layout, start.knobs, start.disk, d) && start.knobs == Reflect(start.disk, layout)
    requires k in start.knobs && RawAt(d, k) != RawAt(start.disk, k)
    ensures RawAt(d, k).Some?
    ensures var v := RawAt(d, k).value;
            match k.domain.kind
            case KnobInt => exists n: int :: Spells(Trim(v), n) && k.domain.min <= n * 1_000_000 <= k.domain.max
            case KnobFloat => InBounds(k.domain, v)
            case KnobEnum => v in k.domain.values
            case KnobBool => v in k.domain.values
            case KnobText => Trim(v) != "" && ByteLength(Trim(v)) <= 8000
  {
    var v := RawAt(d, k).value;
    assert InBounds(k.domain, v);
    match k.domain.kind {
      case KnobInt =>
        var n: int :| Spells(Trim(v), n) && IsInt64(n) && k.domain.min <= n * 1_000_000 <= k.domain.max;
      case KnobText => ReflectedPrompts(start.disk, layout, k);
      case _ =>
    }
  }

  /** The same holds inside a trial: between apply and verdict, and after the restore. */
  lemma MidTrialContained(opts: Options, env: Env, base: Score, layout: Layout,
                          start: RunState, sts: seq<RunState>, c: Change, d: Files)
    requires Execution(opts, env, base, start, sts) && Placed(layout, start.knobs)
    requires d in TrialDisks(opts, env, base, sts[|sts| - 1], c)
    ensures Contained(layout, start.knobs, start.disk, d)
  {
    var st := sts[|sts| - 1];
    ExecutionShape(opts, env, base, start, sts);
    RunContained(opts, env, base, layout, start, sts);
    TrialContained(opts, env, base, layout, start, st, c);
    TrialDiskCases(opts, env, base, st, c, d);
    if d != RunTrial(opts, env, base, st, c).disk {
      ApplyContained(layout, start, st.knobs, st.disk, c, env.faults(|st.trials|).write);
    }
  }

  /** A key that is not on the surface reads the same in every framed disk; in particular the
      sensitive config keys keep their values. */
  lemma OffSurfaceKeyKept(layout: Layout, knobs: seq<Knob>, start: Files, d: Files, p: Path, key: string)
    requires Placed(layout, knobs) && Framed(layout, knobs, start, d)
    requires key !in KeysAt(knobs, p) && Load(start, p).Some?
    ensures Load(d, p).Some?
    ensures MapValue(Target(Load(d, p).value, p != layout.config), key)
         == MapValue(Target(Load(start, p).value, p != layout.config), key)
  {
    assert FileFramed(layout, knobs, start, d, p);
    if !SameAtPath(d, start, p) {
      EditedWithinReads(Target(Load(start, p).value, p != layout.config), Target(d[p].root, p != layout.config),
                        KeysAt(knobs, p), key);
    }
  }

  lemma SensitiveKeysKept(layout: Layout, knobs: seq<Knob>, start: Files, d: Files, key: string)
    requires Placed(layout, knobs) && Framed(layout, knobs, start, d)
    requires key in SENSITIVE && Load(start, layout.config).Some?
    ensures Load(d, layout.config).Some?
    ensures MapValue(Load(d, layout.config).value, key) == MapValue(Load(start, layout.config).value, key)
  {
    assert key !in KeysAt(knobs, layout.config);
    OffSurfaceKeyKept(layout, knobs, start, d, layout.config, key);
  }

  // ---- crash safety --------------------------------------------------------

  ghost predicate Lists(paths: seq<Path>, knobs: seq<Knob>) {
    forall p :: p in paths <==> p in FileSet(knobs)
  }

  /** Crash safety: kill the process in any state of a run, even between apply and verdict;
      loading the snapshot persisted before the run and restoring it gives back the exact
      pre-run disk, deleting files that did not exist, and doing so twice changes nothing. */
  lemma ContainedRecovers(layout: Layout, start: RunState, paths: seq<Path>, d: Files)
    requires Placed(layout, start.knobs) && Lists(paths, start.knobs)
    requires Snap.Holds(start.disk, Snap.CaptureAll(start.disk, paths))
    requires Framed(layout, start.knobs, start.disk, d)
    ensures Snap.Recovers(d, start.disk)
  {
    RecoverySetUp(layout, start, paths, d);
    Snap.LoadRestore(start.disk, paths, d);
  }

  lemma RecoverySetUp(layout: Layout, start: RunState, paths: seq<Path>, d: Files)
    requires Placed(layout, start.knobs) && Lists(paths, start.knobs)
    requires Snap.Holds(start.disk, Snap.CaptureAll(start.disk, paths))
    requires Framed(layout, start.knobs, start.disk, d)
    ensures Snap.AllProject(paths) && Snap.DiffersOnlyAt(d, start.disk, paths)
    ensures Snap.Holds(d, Snap.CaptureAll(start.disk, paths))
  {
    forall p | p !in paths ensures Snap.SameAt(d, start.disk, p) {
      assert FileFramed(layout, start.knobs, start.disk, d, p);
    }
    SnapshotSurvives(start.disk, paths, d);
  }

  /** A second crash, in the middle of that very recovery, is recovered from the same way. */
  lemma CrashedRecoveryRecovers(layout: Layout, start: RunState, paths: seq<Path>, d: Files, e: Files)
    requires Placed(layout, start.knobs) && Lists(paths, start.knobs)
    requires Snap.Holds(start.disk, Snap.CaptureAll(start.disk, paths))
    requires Framed(layout, start.knobs, start.disk, d)
    requires Snap.LoadSnapshot(d).Some? && Snap.PartlyRestored(Snap.LoadSnapshot(d).value, d, e)
    ensures Snap.Recovers(e, start.disk)
  {
    RecoverySetUp(layout, start, paths, d);
    Snap.LoadRestore(start.disk, paths, d);
    var fs := Snap.LoadSnapshot(d).value;
    var j :| 0 <= j <= |fs| && e == Snap.RestoreAll(fs[..j], d);
    Snap.PartlyUndoes(fs, d, start.disk, j);
    forall p | p !in paths ensures Snap.SameAt(e, start.disk, p) {
      assert !Snap.Touches(fs, p);
    }
    SnapshotSurvives(start.disk, paths, e);
    Snap.LoadRestore(start.disk, paths, e);
  }

  lemma SnapshotSurvives(target: Files, paths: seq<Path>, d: Files)
    requires Snap.AllProject(paths) && Snap.DiffersOnlyAt(d, target, paths)
    requires Snap.Holds(target, Snap.CaptureAll(target, paths))
    ensures Snap.Holds(d, Snap.CaptureAll(target, paths))
  {
    var fs := Snap.CaptureAll(target, paths);
    assert Snap.SameAt(d, target, Manifest);
    forall i | 0 <= i < |fs| && fs[i].existed
      ensures Snap.CopyPath(i, fs[i]) in d && Some(d[Snap.CopyPath(i, fs[i])]) == fs[i].data
    {
      assert Snap.SameAt(d, target, Snap.CopyPath(i, fs[i]));
    }
  }
}
