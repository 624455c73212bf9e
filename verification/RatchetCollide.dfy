/** Exactly which projects the shipped proposers leave in step with their disk under every seed,
    evaluator, budget and fault. */
module RatchetCollide {
  import opened Text
  import opened Domains
  import opened Whitelist
  import opened Disk
  import opened Surface
  import opened Guards
  import opened Trials
  import opened Propose
  import opened Answers
  import opened Seeds
  import opened Ratchet
  import opened RatchetRestore
  import opened RatchetSweep
  import opened Regularity
  import opened RatchetRuns
  import opened RatchetAligned
  import opened RatchetSentences
  import Agreement

  // ---- a stale knob breaks agreement ---------------------------------------

  /** A run that scores its first trials, if any, and then fails. */
  function Rigged(propose: (seq<Knob>, seq<Trial>) -> Proposal, scored: nat): Env {
    Env(propose, (n, _) => if n <= scored then Scored(PrimaryOnly(n as real)) else EvalError("no score"),
        0, _ => 0, _ => false, _ => false, _ => Faults(None, None, None))
  }

  /** The proposer moves knob i, with the value knob i holds as Before, to a value Apply accepts. */
  ghost predicate Offers(p: (seq<Knob>, seq<Trial>) -> Proposal, knobs: seq<Knob>, trials: seq<Trial>, i: nat)
    requires i < |knobs|
  {
    && p(knobs, trials).Propose?
    && var c := p(knobs, trials).change;
       && c.knobID == knobs[i].id && c.before == knobs[i].value && c.after != c.before
       && knobs[i].domain.Allows(c.after) && knobs[i].domain.Normalize(c.after) == c.after
  }

  lemma OfferApplies(layout: Layout, disk: Files, p: (seq<Knob>, seq<Trial>) -> Proposal,
                     knobs: seq<Knob>, trials: seq<Trial>, i: nat)
    requires Agrees(layout, disk, knobs) && i < |knobs| && Offers(p, knobs, trials, i)
    ensures Apply(knobs, disk, p(knobs, trials).change, None).Written?
  {
    var c := p(knobs, trials).change;
    var at := Lookup(knobs, c.knobID).value;
    AgreeingRegular(disk, layout, knobs);
    assert knobs[at].domain == knobs[i].domain;
    Agreement.AgreeingKnobSound(disk, layout, knobs, at);
    Agreement.SoundMayWrite(disk, layout, knobs[at]);
    WouldWrite(knobs, disk, c, at);
  }

  lemma RiggedHead(p: (seq<Knob>, seq<Trial>) -> Proposal, scored: nat, st: RunState)
    requires |st.trials| < 2 && st.tokens == 0 && p(st.knobs, st.trials).Propose?
    ensures Head(DefaultOptions(), Rigged(p, scored), st) == Try(p(st.knobs, st.trials).change)
  {
  }

  /** A failed trial of a knob whose id is written elsewhere leaves memory out of step. */
  lemma StaleTrialBreaks(layout: Layout, p: (seq<Knob>, seq<Trial>) -> Proposal, scored: nat, st: RunState, i: nat)
    requires Agrees(layout, st.disk, st.knobs) && ProjectFiles(st.knobs) && scored == |st.trials| < 2
    requires i < |st.knobs| && Offers(p, st.knobs, st.trials, i)
    requires st.knobs[i].value != CurrentValue(st.knobs, st.knobs[i].id)
    ensures var opts, env, base := DefaultOptions(), Rigged(p, scored), PrimaryOnly(0.0);
            var next := Advance(opts, env, base, st, p(st.knobs, st.trials).change);
            !Agrees(layout, next.disk, next.knobs)
  {
    var opts, env, base := DefaultOptions(), Rigged(p, scored), PrimaryOnly(0.0);
    var c := p(st.knobs, st.trials).change;
    OfferApplies(layout, st.disk, p, st.knobs, st.trials, i);
    FailedReverts(opts, env, base, st, c);
    RevertAgreesIff(opts, env, base, layout, st, c);
  }

  lemma FailedReverts(opts: Options, env: Env, base: Score, st: RunState, c: Change)
    requires !opts.dryRun && env.faults(|st.trials|) == Faults(None, None, None)
    requires Apply(st.knobs, st.disk, c, None).Written?
    requires env.evaluate(|st.trials| + 1, Apply(st.knobs, st.disk, c, None).disk).EvalError?
    ensures TrialEffect(opts, env, base, st, c) == Reverts
  {
  }

  /** A first trial that scores is kept. */
  lemma FirstTrialKept(p: (seq<Knob>, seq<Trial>) -> Proposal, st: RunState, c: Change)
    requires st == Start(st.disk, st.knobs, PrimaryOnly(0.0)) && Apply(st.knobs, st.disk, c, None).Written?
    ensures var r := RunTrial(DefaultOptions(), Rigged(p, 1), PrimaryOnly(0.0), st, c);
            r.trial == Opening(DefaultOptions(), st, c).(score := PrimaryOnly(1.0), kept := true)
  {
    BetterIsKept(Opening(DefaultOptions(), st, c));
    RunKept(DefaultOptions(), Rigged(p, 1), PrimaryOnly(0.0), st, c, PrimaryOnly(1.0));
  }

  /** The state after it: one clean trial, and the last knob of the id moved. */
  lemma FirstTrialMoves(p: (seq<Knob>, seq<Trial>) -> Proposal, st: RunState, c: Change)
    requires st == Start(st.disk, st.knobs, PrimaryOnly(0.0)) && Apply(st.knobs, st.disk, c, None).Written?
    ensures var next := Advance(DefaultOptions(), Rigged(p, 1), PrimaryOnly(0.0), st, c);
            && Lookup(st.knobs, c.knobID).Some?
            && next.knobs == AppliedKnobs(st.knobs, Lookup(st.knobs, c.knobID).value, c)
            && |next.trials| == 1 && ChangeOf(next.trials[0]) == c && next.trials[0].error == "" && next.tokens == 0
  {
    FirstTrialKept(p, st, c);
    KeptTrialApplies(DefaultOptions(), Rigged(p, 1), PrimaryOnly(0.0), st, c);
    ApplyUpdates(st.knobs, st.disk, c, None, Lookup(st.knobs, c.knobID).value);
  }

  /** The state a run on this project begins in, its baseline scored 0. */
  function Opened(layout: Layout, disk: Files): RunState {
    Start(disk, Reflect(disk, layout), PrimaryOnly(0.0))
  }

  /** The state after the first proposal was tried. */
  function AfterOne(layout: Layout, disk: Files, p: (seq<Knob>, seq<Trial>) -> Proposal, scored: nat): RunState
    requires p(Reflect(disk, layout), []).Propose?
  {
    Advance(DefaultOptions(), Rigged(p, scored), PrimaryOnly(0.0), Opened(layout, disk),
            p(Reflect(disk, layout), []).change)
  }

  /** Offered once more after the first offer was taken. */
  ghost predicate OffersAgain(p: (seq<Knob>, seq<Trial>) -> Proposal, knobs: seq<Knob>, i: nat)
    requires i < |knobs| && Offers(p, knobs, [], i)
  {
    var c := p(knobs, []).change;
    var at := Lookup(knobs, c.knobID).value;
    forall t :: ChangeOf(t) == c ==> Offers(p, AppliedKnobs(knobs, at, c), [t], i)
  }

  lemma AppliedLast(knobs: seq<Knob>, i: nat, c: Change)
    requires i < |knobs| && !IsLast(knobs, i) && c.knobID == knobs[i].id && c.after != knobs[i].value
    requires OneDomain(knobs) && knobs[i].domain.Normalize(c.after) == c.after
    ensures var at := Lookup(knobs, c.knobID).value;
            AppliedKnobs(knobs, at, c)[i] == knobs[i]
            && CurrentValue(AppliedKnobs(knobs, at, c), c.knobID) != knobs[i].value
  {
    var at := Lookup(knobs, c.knobID).value;
    assert knobs[at].domain == knobs[i].domain;
    LookupUpdate(knobs, at, AppliedKnobs(knobs, at, c)[at], c.knobID);
  }

  /** What the proposer sees after the first trial: knob i where it was, its id elsewhere. */
  lemma AfterFirst(layout: Layout, disk: Files, p: (seq<Knob>, seq<Trial>) -> Proposal, i: nat)
    requires i < |Reflect(disk, layout)| && !IsLast(Reflect(disk, layout), i)
    requires Offers(p, Reflect(disk, layout), [], i) && OffersAgain(p, Reflect(disk, layout), i)
    ensures var next := AfterOne(layout, disk, p, 1);
            && |next.trials| == 1 && next.tokens == 0 && LastError(next) == ""
            && i < |next.knobs| && Offers(p, next.knobs, next.trials, i)
            && next.knobs[i].value != CurrentValue(next.knobs, next.knobs[i].id)
  {
    var knobs := Reflect(disk, layout);
    var c := p(knobs, []).change;
    OfferApplies(layout, disk, p, knobs, [], i);
    FirstTrialMoves(p, Opened(layout, disk), c);
    var next := AfterOne(layout, disk, p, 1);
    assert next.trials == [next.trials[0]];
    ReflectRegular(disk, layout);
    AppliedLast(knobs, i, c);
  }

  /** The first trial was honest, so it leaves surface and disk in step. */
  lemma AfterFirstAgrees(layout: Layout, disk: Files, p: (seq<Knob>, seq<Trial>) -> Proposal, i: nat)
    requires Separate(layout) && i < |Reflect(disk, layout)| && Offers(p, Reflect(disk, layout), [], i)
    requires Reflect(disk, layout)[i].value == CurrentValue(Reflect(disk, layout), Reflect(disk, layout)[i].id)
    ensures var next := AfterOne(layout, disk, p, 1);
            Agrees(layout, next.disk, next.knobs) && ProjectFiles(next.knobs)
  {
    var opts, env, base, st := DefaultOptions(), Rigged(p, 1), PrimaryOnly(0.0), Opened(layout, disk);
    var c := p(st.knobs, []).change;
    ReflectedFilesAreProject(disk, layout);
    TrialAgrees(opts, env, base, layout, st, c);
    TrialShape(opts, env, base, st, c);
    ProjectFilesShape(st.knobs, AfterOne(layout, disk, p, 1).knobs);
  }

  /** A run under a proposer that offers knob i: one trial that ends out of step when the id's last
      knob holds another value, */
  lemma OfferedOnce(layout: Layout, disk: Files, p: (seq<Knob>, seq<Trial>) -> Proposal, i: nat)
    returns (sts: seq<RunState>)
    requires Separate(layout) && i < |Reflect(disk, layout)| && Offers(p, Reflect(disk, layout), [], i)
    requires Reflect(disk, layout)[i].value != CurrentValue(Reflect(disk, layout), Reflect(disk, layout)[i].id)
    ensures Execution(DefaultOptions(), Rigged(p, 0), PrimaryOnly(0.0), Opened(layout, disk), sts)
    ensures !Agrees(layout, sts[|sts| - 1].disk, sts[|sts| - 1].knobs)
  {
    var start := Opened(layout, disk);
    ReflectedFilesAreProject(disk, layout);
    RiggedHead(p, 0, start);
    StaleTrialBreaks(layout, p, 0, start, i);
    sts := [start, AfterOne(layout, disk, p, 0)];
  }

  /** and two trials when it holds the same: the first is kept and moves only the last knob. */
  lemma OfferedTwice(layout: Layout, disk: Files, p: (seq<Knob>, seq<Trial>) -> Proposal, i: nat)
    returns (sts: seq<RunState>)
    requires Separate(layout) && i < |Reflect(disk, layout)| && !IsLast(Reflect(disk, layout), i)
    requires Offers(p, Reflect(disk, layout), [], i) && OffersAgain(p, Reflect(disk, layout), i)
    requires Reflect(disk, layout)[i].value == CurrentValue(Reflect(disk, layout), Reflect(disk, layout)[i].id)
    ensures Execution(DefaultOptions(), Rigged(p, 1), PrimaryOnly(0.0), Opened(layout, disk), sts)
    ensures !Agrees(layout, sts[|sts| - 1].disk, sts[|sts| - 1].knobs)
  {
    var start, next := Opened(layout, disk), AfterOne(layout, disk, p, 1);
    AfterFirst(layout, disk, p, i);
    AfterFirstAgrees(layout, disk, p, i);
    RiggedHead(p, 1, start);
    RiggedHead(p, 1, next);
    StaleTrialBreaks(layout, p, 1, next, i);
    var end := Advance(DefaultOptions(), Rigged(p, 1), PrimaryOnly(0.0), next, p(next.knobs, next.trials).change);
    sts := TwoSteps(DefaultOptions(), Rigged(p, 1), PrimaryOnly(0.0), start, next, end);
  }

  lemma TwoSteps(opts: Options, env: Env, base: Score, a: RunState, b: RunState, c: RunState)
    returns (sts: seq<RunState>)
    requires Step(opts, env, base, a, b) && Step(opts, env, base, b, c)
    ensures Execution(opts, env, base, a, sts) && sts[|sts| - 1] == c
  {
    sts := [a, b, c];
  }

  lemma OfferedBreaks(layout: Layout, disk: Files, p: (seq<Knob>, seq<Trial>) -> Proposal, i: nat)
    returns (scored: nat, sts: seq<RunState>)
    requires Separate(layout) && i < |Reflect(disk, layout)| && !IsLast(Reflect(disk, layout), i)
    requires Offers(p, Reflect(disk, layout), [], i)
    requires var knobs := Reflect(disk, layout);
             knobs[i].value == CurrentValue(knobs, knobs[i].id) ==> OffersAgain(p, knobs, i)
    ensures Execution(DefaultOptions(), Rigged(p, scored), PrimaryOnly(0.0), Opened(layout, disk), sts)
    ensures !Agrees(layout, sts[|sts| - 1].disk, sts[|sts| - 1].knobs)
  {
    if Reflect(disk, layout)[i].value != CurrentValue(Reflect(disk, layout), Reflect(disk, layout)[i].id) {
      scored := 0;
      sts := OfferedOnce(layout, disk, p, i);
    } else {
      scored := 1;
      sts := OfferedTwice(layout, disk, p, i);
    }
  }

  // ---- the deterministic proposer ------------------------------------------

  /** At least three values to choose from, as every agent field that can be enumerated has. */
  predicate Roomy(d: Domain) { |d.Candidates()| >= 3 }

  lemma AgentFieldRoomy(f: Field)
    requires f in AgentFields() && f.domain.Candidates() != []
    ensures Roomy(f.domain)
  {
    GridsRoomy();
    assert f.key in {"temperature", "max_tokens", "max_iter", "system_prompt"};
  }

  lemma GridsRoomy()
    ensures CountSteps(0, 1_000_000, 50_000) >= 3
    ensures CountSteps(512 * UNIT, 8192 * UNIT, 512 * UNIT) >= 3
    ensures CountSteps(1 * UNIT, 24 * UNIT, 1 * UNIT) >= 3
  {
  }

  /** Only agent knobs can share an id: config keys are unique. */
  lemma SharedIsAgent(disk: Files, layout: Layout, i: nat, j: nat)
    requires Separate(layout) && i < j < |Reflect(disk, layout)|
    requires Reflect(disk, layout)[i].id == Reflect(disk, layout)[j].id
    ensures Reflect(disk, layout)[i].source == Agent
  {
    var knobs := Reflect(disk, layout);
    var a, b := knobs[i], knobs[j];
    ReflectedAlike(disk, layout, a, b);
    if a.source == Config {
      Agreement.CountTwice(knobs, i, j);
      Agreement.ReflectOncePerPlace(disk, layout, a.file, a.field);
      assert false;
    }
  }

  lemma ReflectedAlike(disk: Files, layout: Layout, a: Knob, b: Knob)
    requires a in Reflect(disk, layout) && b in Reflect(disk, layout) && a.id == b.id
    ensures a.source == b.source && a.field == b.field && (a.source == Config ==> a.file == b.file == layout.config)
  {
    ReflectNamed(disk, layout, a);
    ReflectNamed(disk, layout, b);
    Agreement.ReflectSound(disk, layout, a);
    Agreement.ReflectSound(disk, layout, b);
    SoundIsPlain(disk, layout, a);
    SoundIsPlain(disk, layout, b);
    SameIDSameField(a, b);
  }

  lemma SharedIsRoomy(disk: Files, layout: Layout, i: nat)
    requires Separate(layout) && i < |Reflect(disk, layout)| && !IsLast(Reflect(disk, layout), i)
    requires Enumerable(Reflect(disk, layout)[i])
    ensures Roomy(Reflect(disk, layout)[i].domain)
  {
    var knobs := Reflect(disk, layout);
    SharedIsAgent(disk, layout, i, Lookup(knobs, knobs[i].id).value);
    Agreement.ReflectSound(disk, layout, knobs[i]);
    var f :| f in AgentFields() && f.key == knobs[i].field && f.domain == knobs[i].domain;
    AgentFieldRoomy(f);
  }

  lemma ThirdValue(c: seq<string>, x: string, y: string) returns (v: string)
    requires |c| >= 3 && forall i, j :: 0 <= i < j < |c| ==> c[i] != c[j]
    ensures v in c && v != x && v != y
  {
    assert c[0] != c[1] && c[1] != c[2] && c[0] != c[2];
    v := if c[0] != x && c[0] != y then c[0] else if c[1] != x && c[1] != y then c[1] else c[2];
  }

  lemma ThirdCandidate(d: Domain, x: string, y: string) returns (v: string)
    requires WellGridded(d) && Roomy(d)
    ensures v in d.Candidates() && v != x && v != y
  {
    CandidatesCoherent(d);
    v := ThirdValue(d.Candidates(), x, y);
  }

  /** At most one value is held and at most one was tried. */
  lemma RoomyIsOpen(k: Knob, trials: seq<Trial>)
    requires WellGridded(k.domain) && Roomy(k.domain) && |trials| <= 1
    ensures Open(k, trials)
  {
    var v := ThirdCandidate(k.domain, k.value, if trials == [] then "" else trials[0].after);
    UntriedIsOpen(k, trials, v);
  }

  lemma UntriedIsOpen(k: Knob, trials: seq<Trial>, v: string)
    requires v in k.domain.Candidates() && v != k.value && !Tried(trials, k.id, v)
    ensures Open(k, trials)
  {
    assert Fresh(k, trials, v);
  }

  lemma FavouredOffers(knobs: seq<Knob>, trials: seq<Trial>, i: nat)
    requires i < |knobs| && WellGridded(knobs[i].domain) && Roomy(knobs[i].domain) && |trials| <= 1
    requires Tries(knobs, trials, i) == 0
    ensures Offers(Favoured(i), knobs, trials, i)
  {
    FavouringValid(i);
    RoomyIsOpen(knobs[i], trials);
    FavouredIsChosen(knobs, trials, i);
    CandidatesCoherent(knobs[i].domain);
  }

  lemma AppliedFirst(knobs: seq<Knob>, at: nat, c: Change, i: nat)
    requires at < |knobs| && i < |knobs| && !FirstOfID(knobs, i)
    ensures !FirstOfID(AppliedKnobs(knobs, at, c), i)
  {
    assert forall j :: 0 <= j < |knobs| ==> AppliedKnobs(knobs, at, c)[j].id == knobs[j].id;
  }

  lemma FavouredOffersAgain(knobs: seq<Knob>, i: nat)
    requires i < |knobs| && Regular(knobs) && Roomy(knobs[i].domain)
    requires !IsLast(knobs, i) && !FirstOfID(knobs, i) && Offers(Favoured(i), knobs, [], i)
    ensures OffersAgain(Favoured(i), knobs, i)
  {
    var c := Favoured(i)(knobs, []).change;
    var after := AppliedKnobs(knobs, Lookup(knobs, c.knobID).value, c);
    AppliedLast(knobs, i, c);
    AppliedFirst(knobs, Lookup(knobs, c.knobID).value, c, i);
    forall t | ChangeOf(t) == c ensures Offers(Favoured(i), after, [t], i) {
      FavouredOffers(after, [t], i);
    }
  }

  lemma StaleDetBreaks(layout: Layout, disk: Files, i: nat) returns (env: Env, sts: seq<RunState>)
    requires Separate(layout) && i < |Reflect(disk, layout)| && Stale(Reflect(disk, layout), i)
    ensures Favouring(i).Valid() && ProposesDet(env, Favouring(i))
    ensures Execution(DefaultOptions(), env, PrimaryOnly(0.0), Opened(layout, disk), sts)
    ensures !Agrees(layout, sts[|sts| - 1].disk, sts[|sts| - 1].knobs)
  {
    var knobs := Reflect(disk, layout);
    FavouringValid(i);
    ReflectRegular(disk, layout);
    SharedIsRoomy(disk, layout, i);
    FavouredOffers(knobs, [], i);
    if !FirstOfID(knobs, i) {
      FavouredOffersAgain(knobs, i);
    }
    var scored;
    scored, sts := OfferedBreaks(layout, disk, Favoured(i), i);
    env := Rigged(Favoured(i), scored);
  }

  /** Whatever the seed, the evaluator, the options and the faults, every state of every
      deterministic run shows what its disk holds. */
  ghost predicate KeepsStep(layout: Layout, disk: Files) {
    forall o: Orders, opts, env, base, sts: seq<RunState> ::
      o.Valid() && ProposesDet(env, o) && Execution(opts, env, base, Start(disk, Reflect(disk, layout), base), sts) ==>
        Agrees(layout, sts[|sts| - 1].disk, sts[|sts| - 1].knobs)
  }

  /** "The surface and the disk never disagree", exactly: a deterministic run keeps the promise on
      this project under every seed, evaluator, budget and fault if and only if no enumerable knob
      shares its id with a later knob that holds another value, or stands between two of them. */
  lemma KeepsStepIffAligned(layout: Layout, disk: Files)
    requires Separate(layout)
    ensures KeepsStep(layout, disk) <==> Aligned(Reflect(disk, layout))
  {
    var knobs := Reflect(disk, layout);
    if Aligned(knobs) {
      ReflectRegular(disk, layout);
      forall o: Orders, opts, env, base, sts: seq<RunState> |
        o.Valid() && ProposesDet(env, o) && Execution(opts, env, base, Start(disk, knobs, base), sts)
        ensures Agrees(layout, sts[|sts| - 1].disk, sts[|sts| - 1].knobs)
      {
        AlignedIsHonest(opts, env, base, o, Start(disk, knobs, base));
        HonestAgrees(opts, env, base, layout, Start(disk, knobs, base), sts);
      }
    } else {
      var i :| 0 <= i < |knobs| && Stale(knobs, i);
      var env, sts := StaleDetBreaks(layout, disk, i);
      assert !KeepsStep(layout, disk);
    }
  }

  // ---- the model-assisted proposer -----------------------------------------

  predicate TextAligned(knobs: seq<Knob>) {
    forall i :: 0 <= i < |knobs| && FirstText(knobs, i) ==> IsLast(knobs, i)
  }

  lemma ShippedHonest(opts: Options, env: Env, o: Orders, rewrite: Option<(Knob, seq<Trial>) -> Option<string>>,
                      every: int, start: seq<Knob>)
    requires o.Valid() && ProposesShipped(env, o, rewrite, every)
    requires Regular(start) && Aligned(start) && TextAligned(start)
    ensures HonestWhileAnchored(opts, env, start)
  {
    forall st | Anchored(start, st) ensures HonestAt(opts, env, st) {
      if Head(opts, env, st).Try? {
        ShippedChangeHonest(o, rewrite, every, start, st);
        assert LlmPropose(o, rewrite, every, st.knobs, st.trials) == Proposal.Propose(Head(opts, env, st).change);
      }
    }
  }

  lemma ShippedChangeHonest(o: Orders, rewrite: Option<(Knob, seq<Trial>) -> Option<string>>, every: int,
                            start: seq<Knob>, st: RunState)
    requires o.Valid() && Regular(start) && Aligned(start) && TextAligned(start) && Anchored(start, st)
    ensures var p := LlmPropose(o, rewrite, every, st.knobs, st.trials);
            p.Propose? ==> p.change.before == CurrentValue(st.knobs, p.change.knobID)
  {
    var p := LlmPropose(o, rewrite, every, st.knobs, st.trials);
    if p.Propose? {
      if p == DetPropose(o, st.knobs, st.trials) {
        var i :| 0 <= i < |st.knobs| && Chosen(o, st.knobs, st.trials, i, p.change);
        ChosenHonest(o, start, st, i, p.change);
      } else {
        var i := PromptMoveFirst(rewrite.value, st.knobs, st.trials);
        forall j | 0 <= j < |start| ensures start[j].id == st.knobs[j].id && start[j].domain == st.knobs[j].domain {
          SameKnob(start, st.knobs, j);
        }
        assert FirstText(start, i);
        ShapeLookup(start, st.knobs, p.change.knobID);
      }
    }
  }

  /** A model that always has another idea. */
  function Idea(k: Knob, trials: seq<Trial>): string {
    if k.value != "p" && !Tried(trials, k.id, "p") then "p"
    else if k.value != "q" && !Tried(trials, k.id, "q") then "q"
    else "r"
  }

  function Inventive(): (Knob, seq<Trial>) -> Option<string> { (k, trials) => Some(Idea(k, trials)) }

  /** The model-assisted proposer with that model, asked every time. */
  ghost function Prompting(): (seq<Knob>, seq<Trial>) -> Proposal {
    FavouringValid(0);
    (knobs, trials) => LlmPropose(Favouring(0), Some(Inventive()), 1, knobs, trials)
  }

  lemma OneLetter(d: Domain, v: string)
    requires d.kind == KnobText && v in {"p", "q", "r"}
    ensures Sanitize(v, d) == v && d.Allows(v) && d.Normalize(v) == v
  {
    assert Trimmed(v) && ByteLength(v) == 1 && UnixLines(v) == v && Unfence(v) == v;
  }

  lemma PromptOffers(knobs: seq<Knob>, trials: seq<Trial>, i: nat)
    requires i < |knobs| && FirstText(knobs, i) && |trials| <= 1
    ensures Offers(Prompting(), knobs, trials, i)
  {
    var k := knobs[i];
    FavouringValid(0);
    OneLetter(k.domain, Idea(k, trials));
    PromptMoveAt(Inventive(), knobs, trials, i);
    IdeaIsNew(k, trials);
    assert PromptMove(Inventive(), [k], trials) == Some(Change(k.id, k.value, Idea(k, trials)));
  }

  lemma IdeaIsNew(k: Knob, trials: seq<Trial>)
    requires |trials| <= 1
    ensures Idea(k, trials) != k.value && !Tried(trials, k.id, Idea(k, trials))
  {
  }

  lemma TextBreaks(layout: Layout, disk: Files, i: nat) returns (o: Orders, env: Env, sts: seq<RunState>)
    requires Separate(layout) && i < |Reflect(disk, layout)|
    requires FirstText(Reflect(disk, layout), i) && !IsLast(Reflect(disk, layout), i)
    ensures o.Valid() && ProposesShipped(env, o, Some(Inventive()), 1)
    ensures Execution(DefaultOptions(), env, PrimaryOnly(0.0), Opened(layout, disk), sts)
    ensures !Agrees(layout, sts[|sts| - 1].disk, sts[|sts| - 1].knobs)
  {
    var knobs := Reflect(disk, layout);
    ReflectRegular(disk, layout);
    PromptOffers(knobs, [], i);
    PromptOffersAgain(knobs, i);
    var scored;
    scored, sts := OfferedBreaks(layout, disk, Prompting(), i);
    env := Rigged(Prompting(), scored);
    o := Favouring(0);
    FavouringValid(0);
  }

  lemma PromptOffersAgain(knobs: seq<Knob>, i: nat)
    requires i < |knobs| && OneDomain(knobs) && FirstText(knobs, i) && !IsLast(knobs, i)
    requires Offers(Prompting(), knobs, [], i)
    ensures OffersAgain(Prompting(), knobs, i)
  {
    var c := Prompting()(knobs, []).change;
    var after := AppliedKnobs(knobs, Lookup(knobs, c.knobID).value, c);
    AppliedLast(knobs, i, c);
    assert forall j :: 0 <= j < |knobs| ==> after[j].domain == knobs[j].domain;
    forall t | ChangeOf(t) == c ensures Offers(Prompting(), after, [t], i) {
      PromptOffers(after, [t], i);
    }
  }

  /** The same for the model-assisted proposer, whatever the model answers. */
  ghost predicate KeepsStepShipped(layout: Layout, disk: Files) {
    forall o: Orders, rewrite, every, opts, env, base, sts: seq<RunState> ::
      && o.Valid() && ProposesShipped(env, o, rewrite, every)
      && Execution(opts, env, base, Start(disk, Reflect(disk, layout), base), sts) ==>
        Agrees(layout, sts[|sts| - 1].disk, sts[|sts| - 1].knobs)
  }

  /** With a model in the loop the first text knob must also be the last of its id. */
  lemma KeepsStepShippedIff(layout: Layout, disk: Files)
    requires Separate(layout)
    ensures KeepsStepShipped(layout, disk) <==> Aligned(Reflect(disk, layout)) && TextAligned(Reflect(disk, layout))
  {
    var knobs := Reflect(disk, layout);
    if Aligned(knobs) && TextAligned(knobs) {
      ReflectRegular(disk, layout);
      forall o: Orders, rewrite, every, opts, env, base, sts: seq<RunState> |
        && o.Valid() && ProposesShipped(env, o, rewrite, every)
        && Execution(opts, env, base, Start(disk, knobs, base), sts)
        ensures Agrees(layout, sts[|sts| - 1].disk, sts[|sts| - 1].knobs)
      {
        ShippedSweeps(env, o, rewrite, every);
        ShippedHonest(opts, env, o, rewrite, every, knobs);
        AlwaysHonest(opts, env, base, o, Start(disk, knobs, base));
        HonestAgrees(opts, env, base, layout, Start(disk, knobs, base), sts);
      }
    } else if !Aligned(knobs) {
      var i :| 0 <= i < |knobs| && Stale(knobs, i);
      var env, sts := StaleDetBreaks(layout, disk, i);
      DetIsShipped(env, Favouring(i), 0);
      assert !KeepsStepShipped(layout, disk);
    } else {
      var i :| 0 <= i < |knobs| && FirstText(knobs, i) && !IsLast(knobs, i);
      var o, env, sts := TextBreaks(layout, disk, i);
      assert !KeepsStepShipped(layout, disk);
    }
  }
}
