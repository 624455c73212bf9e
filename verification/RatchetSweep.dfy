/** The deterministic sweep over whole runs: every pair once, in fair cycles, to the end. */
module RatchetSweep {
  import opened Text
  import opened Domains
  import opened Disk
  import opened Surface
  import opened Guards
  import opened Trials
  import opened Propose
  import opened Ratchet
  import opened RatchetRestore
  import opened Seeds

  /** Knobs that share an id share a domain: true of every reflected surface, because an id ends
      in the field it names. */
  ghost predicate OneDomain(knobs: seq<Knob>) {
    forall i, j :: 0 <= i < |knobs| && 0 <= j < |knobs| && knobs[i].id == knobs[j].id ==>
      knobs[i].domain == knobs[j].domain
  }

  /** Candidates are spelled in normal form, as on every shipped domain. */
  ghost predicate Gridded(knobs: seq<Knob>) {
    forall k :: k in knobs ==> WellGridded(k.domain)
  }

  /** What Reflect guarantees about the domains of a surface, whatever the files hold. */
  ghost predicate Regular(knobs: seq<Knob>) { OneDomain(knobs) && Gridded(knobs) }

  predicate Enumerable(k: Knob) { k.domain.Candidates() != [] }

  /** No other knob carries this one's id. */
  predicate Sole(knobs: seq<Knob>, i: nat)
    requires i < |knobs|
  {
    forall j :: 0 <= j < |knobs| && knobs[j].id == knobs[i].id ==> j == i
  }

  /** The LLM proposer's move: a text knob takes a value never tried before. */
  ghost predicate TextMove(knobs: seq<Knob>, trials: seq<Trial>, i: nat, c: Change)
    requires i < |knobs|
  {
    && !Enumerable(knobs[i]) && c.knobID == knobs[i].id && c.before == knobs[i].value
    && c.after != knobs[i].value && !Tried(trials, c.knobID, c.after)
  }

  /** A proposal either shipped proposer can make. */
  ghost predicate SweepMove(o: Orders, knobs: seq<Knob>, trials: seq<Trial>, i: nat, c: Change)
    requires o.Valid() && i < |knobs|
  {
    Chosen(o, knobs, trials, i, c) || TextMove(knobs, trials, i, c)
  }

  function ChangeOf(t: Trial): Change { Change(t.knobID, t.before, t.after) }

  /** The effect of one trial on the surface: only the last knob of the id can differ, and then it
      holds the new value in normal form, or the proposal's Before. */
  ghost predicate Moved(a: seq<Knob>, b: seq<Knob>, c: Change) {
    && |a| == |b|
    && forall j :: 0 <= j < |a| ==>
         && Fixed(b[j]) == Fixed(a[j])
         && (b[j].value == a[j].value
             || (Lookup(a, c.knobID) == Some(j) && b[j].value in {a[j].domain.Normalize(c.after), c.before}))
  }

  /** Any trial at all moves at most the last knob of its id. */
  lemma TrialMoves(opts: Options, env: Env, base: Score, st: RunState, c: Change)
    ensures Moved(st.knobs, RunTrial(opts, env, base, st, c).knobs, c)
  {
    var effect, applied := TrialCases(opts, env, base, st, c);
    if effect != Untouched {
      var i := Lookup(st.knobs, c.knobID).value;
      var k := st.knobs[i];
      var k' := k.(value := k.domain.Normalize(c.after), inFile := true);
      ApplyUpdates(st.knobs, st.disk, c, env.faults(|st.trials|).write, i);
      SetUpdates(st.knobs, i, k', c);
      UpdateMoves(st.knobs, i, k', c);
      UpdateMoves(st.knobs, i, k'.(value := c.before), c);
    }
  }

  lemma ApplyUpdates(knobs: seq<Knob>, disk: Files, c: Change, writeError: Option<string>, i: nat)
    requires i < |knobs| && Lookup(knobs, c.knobID) == Some(i) && Apply(knobs, disk, c, writeError).Written?
    ensures Apply(knobs, disk, c, writeError).knobs == AppliedKnobs(knobs, i, c)
  {
  }

  lemma SetUpdates(knobs: seq<Knob>, i: nat, k: Knob, c: Change)
    requires i < |knobs| && Lookup(knobs, c.knobID) == Some(i) && k.id == c.knobID
    ensures SetValue(knobs[i := k], c.knobID, c.before) == knobs[i := k.(value := c.before)]
  {
    LookupUpdate(knobs, i, k, c.knobID);
  }

  lemma UpdateMoves(knobs: seq<Knob>, i: nat, k: Knob, c: Change)
    requires Lookup(knobs, c.knobID) == Some(i) && Fixed(k) == Fixed(knobs[i])
    requires k.value in {knobs[i].domain.Normalize(c.after), c.before}
    ensures Moved(knobs, knobs[i := k], c)
  {
  }

  // ---- sweeps as sequences of surfaces and histories -----------------------

  /** One trial of a sweep. */
  ghost predicate SweepStep(o: Orders, a: RunState, b: RunState)
    requires o.Valid()
  {
    && b.trials != [] && b.trials[..|b.trials| - 1] == a.trials
    && var c := ChangeOf(b.trials[|b.trials| - 1]);
       && Moved(a.knobs, b.knobs, c)
       && exists i :: 0 <= i < |a.knobs| && SweepMove(o, a.knobs, a.trials, i, c)
  }

  ghost predicate Sweep(o: Orders, sts: seq<RunState>)
    requires o.Valid()
  {
    && sts != [] && sts[0].trials == []
    && forall i :: 0 < i < |sts| ==> SweepStep(o, sts[i - 1], sts[i])
  }

  lemma SweepPrefix(o: Orders, sts: seq<RunState>, n: nat)
    requires o.Valid() && Sweep(o, sts) && 0 < n <= |sts|
    ensures Sweep(o, sts[..n])
  {
  }

  /** Everything about the knobs but their values. */
  ghost predicate SameShape(a: seq<Knob>, b: seq<Knob>) {
    |a| == |b| && forall j :: 0 <= j < |a| ==> Fixed(b[j]) == Fixed(a[j])
  }

  lemma SameKnob(a: seq<Knob>, b: seq<Knob>, j: nat)
    requires SameShape(a, b) && j < |a|
    ensures b[j].id == a[j].id && b[j].domain == a[j].domain
  {
    assert Fixed(b[j]).id == Fixed(a[j]).id && Fixed(b[j]).domain == Fixed(a[j]).domain;
  }

  lemma {:induction false} SweepKeepsShape(o: Orders, sts: seq<RunState>)
    requires o.Valid() && Sweep(o, sts)
    ensures SameShape(sts[0].knobs, sts[|sts| - 1].knobs) && |sts[|sts| - 1].trials| == |sts| - 1
  {
    if |sts| > 1 {
      SweepPrefix(o, sts, |sts| - 1);
      SweepKeepsShape(o, sts[..|sts| - 1]);
      assert SweepStep(o, sts[|sts| - 2], sts[|sts| - 1]);
    }
  }

  lemma ShapeRegular(a: seq<Knob>, b: seq<Knob>)
    requires SameShape(a, b) && Regular(a)
    ensures Regular(b)
  {
    forall j | 0 <= j < |b| ensures b[j].id == a[j].id && b[j].domain == a[j].domain {
      SameKnob(a, b, j);
    }
  }

  /** A sweep that starts regular stays regular. */
  lemma SweepRegular(o: Orders, sts: seq<RunState>)
    requires o.Valid() && Sweep(o, sts) && Regular(sts[0].knobs)
    ensures Regular(sts[|sts| - 1].knobs) && SameShape(sts[0].knobs, sts[|sts| - 1].knobs)
  {
    SweepKeepsShape(o, sts);
    ShapeRegular(sts[0].knobs, sts[|sts| - 1].knobs);
  }

  // ---- no pair twice -------------------------------------------------------

  /** The set of (knob, value) pairs tried. */
  function Pairs(trials: seq<Trial>): set<(string, string)> {
    set i | 0 <= i < |trials| :: (trials[i].knobID, trials[i].after)
  }

  lemma PairsTried(trials: seq<Trial>, id: string, v: string)
    ensures (id, v) in Pairs(trials) <==> Tried(trials, id, v)
  {
  }

  lemma PairsSnoc(trials: seq<Trial>, t: Trial)
    ensures Pairs(trials + [t]) == Pairs(trials) + {(t.knobID, t.after)}
  {
    var all := trials + [t];
    forall p ensures p in Pairs(all) <==> p in Pairs(trials) + {(t.knobID, t.after)} {
      PairsTried(all, p.0, p.1);
      PairsTried(trials, p.0, p.1);
      TriedSnoc(trials, t, p.0, p.1);
    }
  }

  lemma MoveIsFresh(o: Orders, knobs: seq<Knob>, trials: seq<Trial>, i: nat, c: Change)
    requires o.Valid() && i < |knobs| && SweepMove(o, knobs, trials, i, c)
    ensures !Tried(trials, c.knobID, c.after) && c.after != knobs[i].value && c.knobID == knobs[i].id
    ensures Enumerable(knobs[i]) ==> c.after in knobs[i].domain.Candidates()
  {
  }

  /** The space: every knob with every one of its candidates. */
  function Space(knobs: seq<Knob>): set<(string, string)> {
    set k, c | k in knobs && c in k.domain.Candidates() :: (k.id, c)
  }

  /** Sum over knobs of |Candidates|. */
  function SpaceBound(knobs: seq<Knob>): nat {
    if knobs == [] then 0 else |knobs[0].domain.Candidates()| + SpaceBound(knobs[1..])
  }

  function PairsOf(id: string, cands: seq<string>): set<(string, string)> {
    set c | c in cands :: (id, c)
  }

  lemma {:induction false} PairsOfBound(id: string, cands: seq<string>)
    ensures |PairsOf(id, cands)| <= |cands|
  {
    if cands != [] {
      PairsOfBound(id, cands[1..]);
      assert PairsOf(id, cands) == PairsOf(id, cands[1..]) + {(id, cands[0])};
    } else {
      assert PairsOf(id, cands) == {};
    }
  }

  lemma {:induction false} SpaceSize(knobs: seq<Knob>)
    ensures |Space(knobs)| <= SpaceBound(knobs)
  {
    if knobs == [] {
      assert Space(knobs) == {};
    } else {
      var k := knobs[0];
      SpaceSize(knobs[1..]);
      PairsOfBound(k.id, k.domain.Candidates());
      assert Space(knobs) == PairsOf(k.id, k.domain.Candidates()) + Space(knobs[1..]) by {
        forall p ensures p in Space(knobs) <==> p in PairsOf(k.id, k.domain.Candidates()) + Space(knobs[1..]) {
          assert knobs == [k] + knobs[1..];
        }
      }
    }
  }

  lemma SubsetSize<T>(a: set<T>, b: set<T>)
    requires a <= b
    ensures |a| <= |b|
  {
    assert b == a + (b - a);
  }

  /** No (knob, value) pair is ever tried twice: each trial adds a new one. */
  lemma {:induction false} NoPairTwice(o: Orders, sts: seq<RunState>)
    requires o.Valid() && Sweep(o, sts)
    ensures |Pairs(sts[|sts| - 1].trials)| == |sts[|sts| - 1].trials|
  {
    if |sts| == 1 {
      assert Pairs(sts[0].trials) == {};
    } else {
      SweepPrefix(o, sts, |sts| - 1);
      NoPairTwice(o, sts[..|sts| - 1]);
      PairAdded(o, sts[|sts| - 2], sts[|sts| - 1]);
    }
  }

  lemma PairAdded(o: Orders, a: RunState, b: RunState)
    requires o.Valid() && SweepStep(o, a, b)
    ensures |Pairs(b.trials)| == |Pairs(a.trials)| + 1 && |b.trials| == |a.trials| + 1
  {
    var t, i := StepMove(o, a, b);
    MoveIsFresh(o, a.knobs, a.trials, i, ChangeOf(t));
    NewPair(a.trials, t);
  }

  lemma NewPair(trials: seq<Trial>, t: Trial)
    requires !Tried(trials, t.knobID, t.after)
    ensures |Pairs(trials + [t])| == |Pairs(trials)| + 1
  {
    PairsSnoc(trials, t);
    PairsTried(trials, t.knobID, t.after);
  }

  /** The move of the last step, with the knob it moves. */
  lemma StepMove(o: Orders, a: RunState, b: RunState) returns (t: Trial, i: nat)
    requires o.Valid() && SweepStep(o, a, b)
    ensures b.trials == a.trials + [t] && i < |a.knobs|
    ensures SweepMove(o, a.knobs, a.trials, i, ChangeOf(t)) && Moved(a.knobs, b.knobs, ChangeOf(t))
  {
    t := b.trials[|b.trials| - 1];
    i :| 0 <= i < |a.knobs| && SweepMove(o, a.knobs, a.trials, i, ChangeOf(t));
    assert b.trials == a.trials + [t];
  }

  /** A knob whose value changed carries the tried id, and holds the tried value or the Before of
      the knob that was chosen. */
  lemma StepValue(o: Orders, a: RunState, b: RunState, t: Trial, i: nat, j: nat)
    requires o.Valid() && Regular(a.knobs) && i < |a.knobs| && j < |a.knobs|
    requires SweepMove(o, a.knobs, a.trials, i, ChangeOf(t)) && Moved(a.knobs, b.knobs, ChangeOf(t))
    ensures b.knobs[j].value != a.knobs[j].value ==> a.knobs[j].id == t.knobID == a.knobs[i].id
    ensures b.knobs[j].value != a.knobs[j].value && Enumerable(a.knobs[j]) ==>
              t.after in a.knobs[j].domain.Candidates() && b.knobs[j].value in {t.after, a.knobs[i].value}
  {
    if b.knobs[j].value != a.knobs[j].value && Enumerable(a.knobs[j]) {
      assert a.knobs[i].domain == a.knobs[j].domain;
      MoveIsFresh(o, a.knobs, a.trials, i, ChangeOf(t));
      CandidatesCoherent(a.knobs[j].domain);
    }
  }

  // ---- the end of the space ------------------------------------------------

  /** A step of the deterministic proposer. */
  ghost predicate ChosenStep(o: Orders, a: RunState, b: RunState)
    requires o.Valid()
  {
    && b.trials != []
    && var c := ChangeOf(b.trials[|b.trials| - 1]);
       exists i :: 0 <= i < |a.knobs| && Chosen(o, a.knobs, a.trials, i, c)
  }

  /** A run of the deterministic proposer. */
  ghost predicate DetSweep(o: Orders, sts: seq<RunState>)
    requires o.Valid()
  {
    && Sweep(o, sts)
    && forall i :: 0 < i < |sts| ==> ChosenStep(o, sts[i - 1], sts[i])
  }

  lemma ChosenMove(o: Orders, a: RunState, b: RunState) returns (t: Trial, i: nat)
    requires o.Valid() && SweepStep(o, a, b) && ChosenStep(o, a, b)
    ensures b.trials == a.trials + [t] && i < |a.knobs| && Chosen(o, a.knobs, a.trials, i, ChangeOf(t))
    ensures Moved(a.knobs, b.knobs, ChangeOf(t))
  {
    t, i := StepMove(o, a, b);
    i :| 0 <= i < |a.knobs| && Chosen(o, a.knobs, a.trials, i, ChangeOf(t));
  }

  /** Every trial of a deterministic run takes a pair of the space. */
  lemma {:induction false} PairsInSpace(o: Orders, sts: seq<RunState>)
    requires o.Valid() && DetSweep(o, sts)
    ensures Pairs(sts[|sts| - 1].trials) <= Space(sts[0].knobs)
  {
    if |sts| == 1 {
      assert Pairs(sts[0].trials) == {};
    } else {
      SweepPrefix(o, sts, |sts| - 1);
      PairsInSpace(o, sts[..|sts| - 1]);
      SweepKeepsShape(o, sts[..|sts| - 1]);
      PairStaysInSpace(o, sts[0].knobs, sts[|sts| - 2], sts[|sts| - 1]);
    }
  }

  lemma PairStaysInSpace(o: Orders, start: seq<Knob>, a: RunState, b: RunState)
    requires o.Valid() && SweepStep(o, a, b) && ChosenStep(o, a, b) && SameShape(start, a.knobs)
    requires Pairs(a.trials) <= Space(start)
    ensures Pairs(b.trials) <= Space(start)
  {
    var t, i := ChosenMove(o, a, b);
    PairsSnoc(a.trials, t);
    InSpace(start, a.knobs, i, t.after);
  }

  /** A run of the deterministic proposer has at most the sum over knobs of |Candidates|
      trials, whatever the budget. */
  lemma SweepIsBounded(o: Orders, sts: seq<RunState>)
    requires o.Valid() && DetSweep(o, sts)
    ensures |sts[|sts| - 1].trials| <= |Space(sts[0].knobs)| <= SpaceBound(sts[0].knobs)
  {
    NoPairTwice(o, sts);
    PairsInSpace(o, sts);
    SubsetSize(Pairs(sts[|sts| - 1].trials), Space(sts[0].knobs));
    SpaceSize(sts[0].knobs);
  }

  lemma InSpace(start: seq<Knob>, knobs: seq<Knob>, i: nat, v: string)
    requires SameShape(start, knobs) && i < |knobs| && v in knobs[i].domain.Candidates()
    ensures (knobs[i].id, v) in Space(start)
  {
    SameKnob(start, knobs, i);
    assert start[i] in start;
  }

  /** Some knob of this id started at this value. */
  predicate StartsAt(knobs: seq<Knob>, id: string, v: string) {
    exists i :: 0 <= i < |knobs| && knobs[i].id == id && knobs[i].value == v
  }

  /** An enumerable knob holds a value some trial moved it to, or one a knob of its id started
      with: its own, when no other knob has the id. */
  lemma {:induction false} ValueIsStartOrTried(o: Orders, sts: seq<RunState>, j: nat)
    requires o.Valid() && Sweep(o, sts) && Regular(sts[0].knobs)
    requires j < |sts[0].knobs| && Enumerable(sts[0].knobs[j])
    ensures var st, id := sts[|sts| - 1], sts[0].knobs[j].id;
            j < |st.knobs| && (StartsAt(sts[0].knobs, id, st.knobs[j].value) || Tried(st.trials, id, st.knobs[j].value))
    decreases |sts|
  {
    if |sts| > 1 {
      var a, b := sts[|sts| - 2], sts[|sts| - 1];
      SweepPrefix(o, sts, |sts| - 1);
      SweepRegular(o, sts[..|sts| - 1]);
      ValueIsStartOrTried(o, sts[..|sts| - 1], j);
      var t, i := StepMove(o, a, b);
      StepValue(o, a, b, t, i, j);
      SameKnob(sts[0].knobs, a.knobs, j);
      SameKnob(sts[0].knobs, a.knobs, i);
      TriedSnoc(a.trials, t, sts[0].knobs[j].id, b.knobs[j].value);
      if b.knobs[j].value != a.knobs[j].value {
        assert a.knobs[i].domain == a.knobs[j].domain;
        ValueIsStartOrTried(o, sts[..|sts| - 1], i);
      }
    }
  }

  /** "Surface exhausted" is honest: when the sweep proposes nothing, every candidate of every
      enumerable knob was tried, except possibly a value a knob of its id started with; that is
      the knob's own untouched starting value when no other knob has the id. */
  lemma ExhaustedMeansSwept(o: Orders, sts: seq<RunState>, j: nat, v: string)
    requires o.Valid() && Sweep(o, sts) && Regular(sts[0].knobs)
    requires j < |sts[0].knobs| && v in sts[0].knobs[j].domain.Candidates()
    requires DetPropose(o, sts[|sts| - 1].knobs, sts[|sts| - 1].trials).NoProposal?
    ensures Tried(sts[|sts| - 1].trials, sts[0].knobs[j].id, v) || StartsAt(sts[0].knobs, sts[0].knobs[j].id, v)
    ensures Sole(sts[0].knobs, j) ==>
              Tried(sts[|sts| - 1].trials, sts[0].knobs[j].id, v) || v == sts[0].knobs[j].value
  {
    var st := sts[|sts| - 1];
    SweepKeepsShape(o, sts);
    SameKnob(sts[0].knobs, st.knobs, j);
    ValueIsStartOrTried(o, sts, j);
    assert !Open(st.knobs[j], st.trials);
    assert !Fresh(st.knobs[j], st.trials, v);
  }

  /** A value every knob of its id shows. */
  ghost predicate Agreed(knobs: seq<Knob>, id: string, v: string) {
    forall k :: k in knobs && k.id == id && v in k.domain.Candidates() ==> k.value == v
  }

  /** The pairs that no knob could propose, tried or not: the value is held wherever it could be
      proposed. With distinct ids, simply the current values. */
  ghost function Holding(knobs: seq<Knob>): set<(string, string)> {
    set k | k in knobs && k.value in k.domain.Candidates() && Agreed(knobs, k.id, k.value) :: (k.id, k.value)
  }

  /** The sweep is out of proposals exactly when the tried pairs and the held ones cover the
      whole space. */
  lemma ExhaustedIffCovered(o: Orders, knobs: seq<Knob>, trials: seq<Trial>)
    requires o.Valid()
    ensures DetPropose(o, knobs, trials).NoProposal? <==> Space(knobs) <= Pairs(trials) + Holding(knobs)
  {
    if DetPropose(o, knobs, trials).NoProposal? {
      forall p | p in Space(knobs) ensures p in Pairs(trials) + Holding(knobs) {
        var k, c :| k in knobs && c in k.domain.Candidates() && p == (k.id, c);
        PairsTried(trials, k.id, c);
        if !Tried(trials, k.id, c) {
          UntriedIsAgreed(o, knobs, trials, k.id, c);
          assert k.value == c;
        }
      }
    }
    if Space(knobs) <= Pairs(trials) + Holding(knobs) {
      forall i | 0 <= i < |knobs| ensures !Open(knobs[i], trials) {
        CoveredIsClosed(knobs, trials, knobs[i]);
      }
    }
  }

  lemma UntriedIsAgreed(o: Orders, knobs: seq<Knob>, trials: seq<Trial>, id: string, v: string)
    requires o.Valid() && DetPropose(o, knobs, trials).NoProposal? && !Tried(trials, id, v)
    ensures Agreed(knobs, id, v)
  {
    forall k | k in knobs && k.id == id && v in k.domain.Candidates() ensures k.value == v {
      assert !Open(k, trials);
      assert !Fresh(k, trials, v);
    }
  }

  lemma CoveredIsClosed(knobs: seq<Knob>, trials: seq<Trial>, k: Knob)
    requires k in knobs && Space(knobs) <= Pairs(trials) + Holding(knobs)
    ensures !Open(k, trials)
  {
    forall v ensures !Fresh(k, trials, v) {
      if v in k.domain.Candidates() {
        assert (k.id, v) in Space(knobs);
        PairsTried(trials, k.id, v);
      }
    }
  }

  /** The claim a spent experiment budget makes, "the surface was NOT exhausted", settled by
      counting: it is true of a deterministic run if and only if trials plus held values not yet
      tried fall short of the size of the space. */
  lemma NotExhaustedIffShort(o: Orders, sts: seq<RunState>)
    requires o.Valid() && DetSweep(o, sts)
    ensures var st := sts[|sts| - 1];
            !DetPropose(o, st.knobs, st.trials).NoProposal? <==>
            |st.trials| + |Holding(st.knobs) - Pairs(st.trials)| < |Space(sts[0].knobs)|
  {
    var st := sts[|sts| - 1];
    SweepKeepsShape(o, sts);
    SameSpace(sts[0].knobs, st.knobs);
    NoPairTwice(o, sts);
    PairsInSpace(o, sts);
    ExhaustedIffCovered(o, st.knobs, st.trials);
    CoverByCount(Pairs(st.trials), Holding(st.knobs), Space(sts[0].knobs));
  }

  /** The starting values a run might never have to propose. */
  function Starting(knobs: seq<Knob>): set<(string, string)> {
    set k | k in knobs && k.value in k.domain.Candidates() :: (k.id, k.value)
  }

  /** Held values not yet tried were there at the start. */
  lemma HeldWasStarting(o: Orders, sts: seq<RunState>)
    requires o.Valid() && Sweep(o, sts) && Regular(sts[0].knobs)
    ensures var st := sts[|sts| - 1]; Holding(st.knobs) - Pairs(st.trials) <= Starting(sts[0].knobs)
  {
    var st := sts[|sts| - 1];
    SweepRegular(o, sts);
    forall p | p in Holding(st.knobs) - Pairs(st.trials) ensures p in Starting(sts[0].knobs) {
      var k :| k in st.knobs && k.value in k.domain.Candidates() && p == (k.id, k.value);
      var j :| 0 <= j < |st.knobs| && st.knobs[j] == k;
      SameKnob(sts[0].knobs, st.knobs, j);
      ValueIsStartOrTried(o, sts, j);
      PairsTried(st.trials, k.id, k.value);
      var i :| 0 <= i < |sts[0].knobs| && sts[0].knobs[i].id == k.id && sts[0].knobs[i].value == k.value;
      assert sts[0].knobs[i] in sts[0].knobs && sts[0].knobs[i].domain == sts[0].knobs[j].domain;
    }
  }

  /** Before the run: a budget that leaves room for every starting value next to its experiments
      makes "the surface was NOT exhausted" true, whatever is kept. */
  lemma SmallBudgetNotExhausted(o: Orders, sts: seq<RunState>)
    requires o.Valid() && DetSweep(o, sts) && Regular(sts[0].knobs)
    requires |sts[|sts| - 1].trials| + |Starting(sts[0].knobs)| < |Space(sts[0].knobs)|
    ensures !DetPropose(o, sts[|sts| - 1].knobs, sts[|sts| - 1].trials).NoProposal?
  {
    NotExhaustedIffShort(o, sts);
    HeldWasStarting(o, sts);
    SubsetSize(Holding(sts[|sts| - 1].knobs) - Pairs(sts[|sts| - 1].trials), Starting(sts[0].knobs));
  }

  lemma CoverByCount<T>(tried: set<T>, held: set<T>, space: set<T>)
    requires tried <= space && held <= space
    ensures space <= tried + held <==> |tried| + |held - tried| >= |space|
  {
    var cover := tried + (held - tried);
    assert cover == tried + held && |cover| == |tried| + |held - tried|;
    if |cover| >= |space| {
      SubsetEqual(cover, space);
    } else if space <= cover {
      SubsetSize(space, cover);
    }
  }

  lemma SubsetEqual<T>(a: set<T>, b: set<T>)
    requires a <= b && |a| >= |b|
    ensures a == b
  {
    if exists x :: x in b && x !in a {
      var x :| x in b && x !in a;
      SubsetSize(a + {x}, b);
    }
  }

  lemma SameSpace(a: seq<Knob>, b: seq<Knob>)
    requires SameShape(a, b)
    ensures Space(a) == Space(b)
    ensures Holding(b) <= Space(a)
  {
    forall j | 0 <= j < |a| ensures a[j].id == b[j].id && a[j].domain == b[j].domain {
      SameKnob(a, b, j);
    }
    SpaceWithin(a, b);
    SpaceWithin(b, a);
  }

  lemma SpaceWithin(a: seq<Knob>, b: seq<Knob>)
    requires |a| == |b| && forall j :: 0 <= j < |a| ==> a[j].id == b[j].id && a[j].domain == b[j].domain
    ensures Space(a) <= Space(b)
  {
    forall p | p in Space(a) ensures p in Space(b) {
      var k, c :| k in a && c in k.domain.Candidates() && p == (k.id, c);
      var i :| 0 <= i < |a| && a[i] == k;
      assert b[i] in b && c in b[i].domain.Candidates();
    }
  }

  // ---- fairness ------------------------------------------------------------

  /** An exhausted knob stays exhausted, whatever the trial, even one made for another knob of its
      id: all its candidates but the one it holds were tried, and only that one can be tried next. */
  lemma ClosedStaysClosed(o: Orders, a: RunState, b: RunState, j: nat)
    requires o.Valid() && Regular(a.knobs) && SweepStep(o, a, b) && j < |a.knobs| && !Open(a.knobs[j], a.trials)
    ensures j < |b.knobs| && !Open(b.knobs[j], b.trials)
  {
    var t, i := StepMove(o, a, b);
    StepValue(o, a, b, t, i, j);
    SameKnob(a.knobs, b.knobs, j);
    MoveIsFresh(o, a.knobs, a.trials, i, ChangeOf(t));
    forall v ensures !Fresh(b.knobs[j], b.trials, v) {
      assert !Fresh(a.knobs[j], a.trials, v);
      TriedSnoc(a.trials, t, b.knobs[j].id, v);
      if b.knobs[j].value != a.knobs[j].value && v in a.knobs[j].domain.Candidates() {
        assert !Fresh(a.knobs[j], a.trials, t.after);
      }
    }
  }

  /** How far ahead one knob may be of another that still has something to try. A knob whose id
      is its own is charged with exactly its moves; the source charges a shared id to its first
      knob only. */
  ghost predicate FairTo(st: RunState, i: nat, j: nat)
    requires i < |st.knobs| && j < |st.knobs|
  {
    Enumerable(st.knobs[i]) && Sole(st.knobs, i) && Open(st.knobs[j], st.trials) ==>
      Moves(st.trials, st.knobs[i].id) <= Tries(st.knobs, st.trials, j) + 1
  }

  ghost predicate Fair(st: RunState) {
    forall i, j :: 0 <= i < |st.knobs| && 0 <= j < |st.knobs| ==> FairTo(st, i, j)
  }

  lemma SoleIsCharged(knobs: seq<Knob>, trials: seq<Trial>, i: nat)
    requires i < |knobs|
    ensures Tries(knobs, trials, i) <= Moves(trials, knobs[i].id)
    ensures Sole(knobs, i) ==> Tries(knobs, trials, i) == Moves(trials, knobs[i].id)
  {
  }

  /** The chosen knob is a least-charged open knob. */
  lemma ChosenIsLeastTried(o: Orders, knobs: seq<Knob>, trials: seq<Trial>, i: nat, j: nat, c: Change)
    requires o.Valid() && i < |knobs| && j < |knobs| && Chosen(o, knobs, trials, i, c) && Open(knobs[j], trials)
    ensures Tries(knobs, trials, i) <= Tries(knobs, trials, j)
  {
    if i != j {
      assert Before(o, knobs, trials, i, j);
    }
  }

  lemma StepMoves(a: RunState, b: RunState, t: Trial, j: nat)
    requires SameShape(a.knobs, b.knobs) && j < |a.knobs| && b.trials == a.trials + [t]
    ensures b.knobs[j].id == a.knobs[j].id && b.knobs[j].domain == a.knobs[j].domain
    ensures var id := a.knobs[j].id; Moves(b.trials, id) == Moves(a.trials, id) + if t.knobID == id then 1 else 0
    ensures Tries(b.knobs, b.trials, j) >= Tries(a.knobs, a.trials, j)
    ensures Sole(b.knobs, j) == Sole(a.knobs, j)
  {
    MovesSnoc(a.trials, t, a.knobs[j].id);
    forall i | 0 <= i < |a.knobs| ensures b.knobs[i].id == a.knobs[i].id && b.knobs[i].domain == a.knobs[i].domain {
      SameKnob(a.knobs, b.knobs, i);
    }
  }

  lemma FairStep(o: Orders, a: RunState, b: RunState, i: nat, j: nat)
    requires o.Valid() && Regular(a.knobs) && SweepStep(o, a, b) && i < |a.knobs| && j < |a.knobs| && FairTo(a, i, j)
    ensures i < |b.knobs| && j < |b.knobs| && FairTo(b, i, j)
  {
    var t, m := StepMove(o, a, b);
    StepMoves(a, b, t, i);
    StepMoves(a, b, t, j);
    if !Open(a.knobs[j], a.trials) {
      ClosedStaysClosed(o, a, b, j);
    } else if Enumerable(a.knobs[i]) && Sole(a.knobs, i) && t.knobID == a.knobs[i].id {
      assert m == i;
      ChosenIsLeastTried(o, a.knobs, a.trials, m, j, ChangeOf(t));
      SoleIsCharged(a.knobs, a.trials, i);
    }
  }

  /** Cyclic fairness at every step of every run: while some knob still has an untried candidate,
      no enumerable knob with an id of its own has been tried more than once more often than that
      knob has been charged with. */
  lemma {:induction false} SweepIsFair(o: Orders, sts: seq<RunState>)
    requires o.Valid() && Sweep(o, sts) && Regular(sts[0].knobs)
    ensures Fair(sts[|sts| - 1])
  {
    if |sts| > 1 {
      var a, b := sts[|sts| - 2], sts[|sts| - 1];
      SweepPrefix(o, sts, |sts| - 1);
      SweepIsFair(o, sts[..|sts| - 1]);
      SweepRegular(o, sts[..|sts| - 1]);
      SweepRegular(o, sts);
      assert SweepStep(o, a, b);
      forall i, j | 0 <= i < |b.knobs| && 0 <= j < |b.knobs| ensures FairTo(b, i, j) {
        assert FairTo(a, i, j);
        FairStep(o, a, b, i, j);
      }
    }
  }

  // ---- the first lap -------------------------------------------------------

  /** The knobs that could move when the run began. */
  ghost function OpenAt(st: RunState): set<nat> {
    set i: nat | i < |st.knobs| && Open(st.knobs[i], st.trials)
  }

  /** The knobs whose id some trial has moved. */
  function Touched(st: RunState): set<nat> {
    set i: nat | i < |st.knobs| && Moves(st.trials, st.knobs[i].id) > 0
  }

  /** Every knob that could move when the run began has an id of its own. */
  ghost predicate OpenSole(st: RunState) {
    forall i :: i in OpenAt(st) ==> Sole(st.knobs, i)
  }

  /** A knob no trial has touched is exactly as open as at the start. */
  lemma {:induction false} UntouchedStaysOpen(o: Orders, sts: seq<RunState>, j: nat)
    requires o.Valid() && Sweep(o, sts) && j < |sts[0].knobs| && Open(sts[0].knobs[j], sts[0].trials)
    requires j !in Touched(sts[|sts| - 1])
    ensures j < |sts[|sts| - 1].knobs| && Open(sts[|sts| - 1].knobs[j], sts[|sts| - 1].trials)
  {
    SweepKeepsShape(o, sts);
    if |sts| > 1 {
      var a, b := sts[|sts| - 2], sts[|sts| - 1];
      SweepPrefix(o, sts, |sts| - 1);
      SweepKeepsShape(o, sts[..|sts| - 1]);
      var t, i := StepMove(o, a, b);
      StepMoves(a, b, t, j);
      UntouchedStaysOpen(o, sts[..|sts| - 1], j);
      var v :| Fresh(a.knobs[j], a.trials, v);
      TriedSnoc(a.trials, t, b.knobs[j].id, v);
      assert Fresh(b.knobs[j], b.trials, v);
    }
  }

  /** An open knob was open from the start. */
  lemma {:induction false} OpenWasOpen(o: Orders, sts: seq<RunState>, j: nat)
    requires o.Valid() && Sweep(o, sts) && Regular(sts[0].knobs) && j < |sts[|sts| - 1].knobs|
    requires Open(sts[|sts| - 1].knobs[j], sts[|sts| - 1].trials)
    ensures j in OpenAt(sts[0])
  {
    if |sts| > 1 {
      var a, b := sts[|sts| - 2], sts[|sts| - 1];
      SweepPrefix(o, sts, |sts| - 1);
      SweepRegular(o, sts[..|sts| - 1]);
      assert SweepStep(o, a, b);
      if !Open(a.knobs[j], a.trials) {
        ClosedStaysClosed(o, a, b, j);
      }
      OpenWasOpen(o, sts[..|sts| - 1], j);
    }
  }

  lemma TouchedStep(a: RunState, b: RunState, t: Trial, m: nat)
    requires SameShape(a.knobs, b.knobs) && m < |a.knobs| && b.trials == a.trials + [t]
    requires t.knobID == a.knobs[m].id && Sole(a.knobs, m)
    ensures Touched(b) == Touched(a) + {m}
  {
    forall i: nat ensures i in Touched(b) <==> i in Touched(a) + {m} {
      if i < |a.knobs| {
        StepMoves(a, b, t, i);
      }
    }
  }

  /** While some knob of the first lap is untouched, each trial touches a new one. */
  lemma LapStep(o: Orders, sts: seq<RunState>) returns (m: nat)
    requires o.Valid() && DetSweep(o, sts) && |sts| > 1 && Regular(sts[0].knobs) && OpenSole(sts[0])
    requires Touched(sts[|sts| - 2]) < OpenAt(sts[0])
    ensures m in OpenAt(sts[0]) && m !in Touched(sts[|sts| - 2])
    ensures Touched(sts[|sts| - 1]) == Touched(sts[|sts| - 2]) + {m}
  {
    var a, b, front := sts[|sts| - 2], sts[|sts| - 1], sts[..|sts| - 1];
    SweepPrefix(o, sts, |sts| - 1);
    SweepKeepsShape(o, front);
    var t, i := ChosenMove(o, a, b);
    m := i;
    OpenWasOpen(o, front, m);
    SoleStays(sts[0].knobs, a.knobs, m);
    var j :| j in OpenAt(sts[0]) && j !in Touched(a);
    UntouchedStaysOpen(o, front, j);
    ChosenIsLeastTried(o, a.knobs, a.trials, m, j, ChangeOf(t));
    SoleIsCharged(a.knobs, a.trials, m);
    SoleIsCharged(a.knobs, a.trials, j);
    TouchedStep(a, b, t, m);
  }

  lemma SoleStays(a: seq<Knob>, b: seq<Knob>, m: nat)
    requires SameShape(a, b) && m < |a| && Sole(a, m)
    ensures Sole(b, m)
  {
    forall j | 0 <= j < |b| ensures b[j].id == a[j].id {
      SameKnob(a, b, j);
    }
  }

  /** n distinct knobs of the lap have been touched. */
  ghost predicate InLap(touched: set<nat>, open: set<nat>, n: nat) {
    touched <= open && |touched| == n
  }

  lemma LapUnfinished(touched: set<nat>, open: set<nat>, n: nat)
    requires InLap(touched, open, n) && n < |open|
    ensures touched < open
  {
    assert touched != open;
  }

  lemma LapGrows(touched: set<nat>, open: set<nat>, m: nat, n: nat)
    requires InLap(touched, open, n) && m in open && m !in touched
    ensures InLap(touched + {m}, open, n + 1)
  {
  }

  /** Every trial so far has touched a knob of its own, one that could move from the start. */
  ghost predicate LapAt(sts: seq<RunState>) {
    sts != [] && InLap(Touched(sts[|sts| - 1]), OpenAt(sts[0]), |sts| - 1)
  }

  lemma LapBegins(o: Orders, sts: seq<RunState>)
    requires o.Valid() && DetSweep(o, sts) && |sts| == 1
    ensures LapAt(sts)
  {
    assert Touched(sts[0]) == {};
  }

  lemma LapNext(o: Orders, sts: seq<RunState>)
    requires o.Valid() && DetSweep(o, sts) && Regular(sts[0].knobs) && OpenSole(sts[0])
    requires 1 < |sts| <= |OpenAt(sts[0])| + 1 && LapAt(sts[..|sts| - 1])
    ensures LapAt(sts)
  {
    var touched, open, n := Touched(sts[|sts| - 2]), OpenAt(sts[0]), |sts| - 2;
    assert InLap(touched, open, n);
    LapUnfinished(touched, open, n);
    var m := LapStep(o, sts);
    LapGrows(touched, open, m, n);
  }

  lemma DetSweepPrefix(o: Orders, sts: seq<RunState>)
    requires o.Valid() && DetSweep(o, sts) && |sts| > 1
    ensures DetSweep(o, sts[..|sts| - 1]) && sts[..|sts| - 1][0] == sts[0]
  {
  }

  lemma {:induction false} LapCounts(o: Orders, sts: seq<RunState>)
    requires o.Valid() && DetSweep(o, sts) && Regular(sts[0].knobs) && OpenSole(sts[0])
    requires |sts| - 1 <= |OpenAt(sts[0])|
    ensures LapAt(sts)
  {
    if |sts| == 1 {
      LapBegins(o, sts);
    } else {
      DetSweepPrefix(o, sts);
      LapCounts(o, sts[..|sts| - 1]);
      LapNext(o, sts);
    }
  }

  /** Every deterministic run from st, under every seed, touches a new movable knob with each
      experiment of its first lap. */
  ghost predicate LapsCleanly(st: RunState) {
    forall o: Orders, sts :: o.Valid() && DetSweep(o, sts) && sts[0] == st && |sts| - 1 <= |OpenAt(st)| ==> LapAt(sts)
  }

  /** Breadth first, exactly: with n knobs that can move, the first n experiments touch n different
      knobs under every seed if and only if each of the n has an id of its own. */
  lemma FirstLapTouchesAllIff(st: RunState)
    requires st.trials == [] && Regular(st.knobs)
    ensures LapsCleanly(st) <==> OpenSole(st)
  {
    if OpenSole(st) {
      forall o: Orders, sts | o.Valid() && DetSweep(o, sts) && sts[0] == st && |sts| - 1 <= |OpenAt(st)|
        ensures LapAt(sts)
      {
        LapCounts(o, sts);
      }
    }
    if !OpenSole(st) {
      var i :| i in OpenAt(st) && !Sole(st.knobs, i);
      var o, sts := SharedLap(st, i);
      assert !LapAt(sts);
    }
  }

  /** A first experiment on any knob that can move. */
  lemma FavouredLap(st: RunState, i: nat) returns (sts: seq<RunState>)
    requires st.trials == [] && i in OpenAt(st)
    ensures Favouring(i).Valid() && DetSweep(Favouring(i), sts) && sts[0] == st && |sts| == 2
    ensures var next := sts[1];
            next.knobs == st.knobs && |next.trials| == 1 && next.trials[0].knobID == st.knobs[i].id
  {
    var next, t := FavouredStep(st, i);
    assert next.trials == [t];
    sts := [st, next];
  }

  /** One experiment on a shared id touches two knobs at once. */
  lemma SharedLap(st: RunState, i: nat) returns (o: Orders, sts: seq<RunState>)
    requires st.trials == [] && i in OpenAt(st) && !Sole(st.knobs, i)
    ensures o.Valid() && DetSweep(o, sts) && sts[0] == st && |sts| - 1 <= |OpenAt(st)| && !LapAt(sts)
  {
    o := Favouring(i);
    sts := FavouredLap(st, i);
    assert OpenAt(st) != {};
    var j :| 0 <= j < |st.knobs| && st.knobs[j].id == st.knobs[i].id && j != i;
    assert sts[1].trials == [sts[1].trials[0]];
    TouchesBoth(sts[1], sts[1].trials[0], i, j);
  }

  /** A trial of a knob that is open and not charged, under the seed that favours it, that leaves
      the surface as it was. */
  lemma FavouredStep(st: RunState, i: nat) returns (next: RunState, t: Trial)
    requires i < |st.knobs| && Open(st.knobs[i], st.trials) && Tries(st.knobs, st.trials, i) == 0
    ensures Favouring(i).Valid() && SweepStep(Favouring(i), st, next) && ChosenStep(Favouring(i), st, next)
    ensures next.knobs == st.knobs && next.trials == st.trials + [t] && t.knobID == st.knobs[i].id
  {
    FavouredIsChosen(st.knobs, st.trials, i);
    var c := DetPropose(Favouring(i), st.knobs, st.trials).change;
    t := Trial(1, c.knobID, c.before, c.after, st.best, ZERO_SCORE, false, "", "", false);
    assert ChangeOf(t) == c;
    next := st.(trials := st.trials + [t]);
    IdleStep(Favouring(i), st, next, t, i);
  }

  /** A shared id is charged to its first knob only, so another knob of it goes on being chosen as
      long as it is open: two trials in a row, while a knob that can move waits for its first. */
  lemma SharedRunsAhead(st: RunState, l: nat, j: nat, v: string, w: string) returns (o: Orders, sts: seq<RunState>)
    requires st.trials == [] && l < |st.knobs| && j < |st.knobs|
    requires !FirstOfID(st.knobs, l) && st.knobs[j].id != st.knobs[l].id && Open(st.knobs[j], [])
    requires v != w && Fresh(st.knobs[l], [], v) && Fresh(st.knobs[l], [], w)
    ensures o.Valid() && DetSweep(o, sts) && sts[0] == st
    ensures var end := sts[|sts| - 1];
            && end.knobs == st.knobs && Open(end.knobs[j], end.trials)
            && Moves(end.trials, st.knobs[l].id) == 2 && Tries(end.knobs, end.trials, j) == 0
  {
    o := Favouring(l);
    var b, t := FavouredStep(st, l);
    assert b.trials == [t];
    OneLeft(st.knobs[l], t, v, w);
    var end, u := FavouredStep(b, l);
    sts := [st, b, end];
    TwoSweepSteps(o, st, b, end);
    TwoTrials(t, u, st.knobs[l].id);
    OthersWait(st.knobs, t, u, j);
    assert end.trials == [t, u];
  }

  lemma OneLeft(k: Knob, t: Trial, v: string, w: string)
    requires v != w && Fresh(k, [], v) && Fresh(k, [], w)
    ensures Open(k, [t])
  {
    assert Fresh(k, [t], if t.after == v then w else v);
  }

  lemma TwoSweepSteps(o: Orders, a: RunState, b: RunState, c: RunState)
    requires o.Valid() && a.trials == [] && SweepStep(o, a, b) && ChosenStep(o, a, b)
    requires SweepStep(o, b, c) && ChosenStep(o, b, c)
    ensures DetSweep(o, [a, b, c])
  {
  }

  lemma TwoTrials(t: Trial, u: Trial, id: string)
    ensures Moves([t, u], id) == (if t.knobID == id then 1 else 0) + if u.knobID == id then 1 else 0
  {
    MovesSnoc([], t, id);
    MovesSnoc([t], u, id);
    assert [] + [t] == [t] && [t] + [u] == [t, u];
  }

  lemma OthersWait(knobs: seq<Knob>, t: Trial, u: Trial, j: nat)
    requires j < |knobs| && Open(knobs[j], []) && t.knobID != knobs[j].id && u.knobID != knobs[j].id
    ensures Open(knobs[j], [t, u]) && Tries(knobs, [t, u], j) == 0
  {
    TwoTrials(t, u, knobs[j].id);
    var x :| Fresh(knobs[j], [], x);
    assert Fresh(knobs[j], [t, u], x);
  }

  /** A chosen trial that leaves the surface alone is a step of a sweep. */
  lemma IdleStep(o: Orders, a: RunState, b: RunState, t: Trial, i: nat)
    requires o.Valid() && i < |a.knobs| && Chosen(o, a.knobs, a.trials, i, ChangeOf(t))
    requires b.knobs == a.knobs && b.trials == a.trials + [t]
    ensures SweepStep(o, a, b) && ChosenStep(o, a, b)
  {
    assert SweepMove(o, a.knobs, a.trials, i, ChangeOf(t));
    assert Moved(a.knobs, b.knobs, ChangeOf(t));
  }

  lemma TouchesBoth(st: RunState, t: Trial, i: nat, j: nat)
    requires st.trials == [t] && i < |st.knobs| && j < |st.knobs| && i != j
    requires t.knobID == st.knobs[i].id == st.knobs[j].id
    ensures |Touched(st)| != 1
  {
    assert [t] == [] + [t];
    MovesSnoc([], t, t.knobID);
    assert {i, j} <= Touched(st);
    SubsetSize({i, j}, Touched(st));
  }

  /** The end of the first lap. */
  lemma FirstLapTouchesAll(o: Orders, sts: seq<RunState>)
    requires o.Valid() && DetSweep(o, sts) && Regular(sts[0].knobs) && OpenSole(sts[0])
    requires |sts| - 1 == |OpenAt(sts[0])|
    ensures Touched(sts[|sts| - 1]) == OpenAt(sts[0])
  {
    LapCounts(o, sts);
    SubsetEqual(Touched(sts[|sts| - 1]), OpenAt(sts[0]));
  }
}
