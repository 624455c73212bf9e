/** pkg/autoresearch/propose.go: which single change to try next. */
module Propose {
  import opened Text
  import opened Domains
  import opened Surface
  import opened Trials

  datatype Proposal =
    | Propose(change: Change)
    | NoProposal
    | Canceled
    | Failed(error: string)

  ghost predicate IsPermutation(p: seq<nat>, n: nat) {
    && |p| == n
    && (forall i :: 0 <= i < n ==> p[i] < n)
    && (forall i, j :: 0 <= i < j < n ==> p[i] != p[j])
    && (forall k: nat :: k < n ==> k in p)
  }

  /** The seeded orders: a permutation of the knobs and one of each knob's values. */
  datatype Orders = Orders(knobs: nat -> seq<nat>, values: (string, nat) -> seq<nat>) {
    ghost predicate Valid() {
      && (forall n :: IsPermutation(knobs(n), n))
      && (forall id, n :: IsPermutation(values(id, n), n))
    }
  }

  /** The position of k in a seeded cycle. */
  function RankOf(perm: seq<nat>, k: nat): (r: nat)
    requires k in perm
    ensures r < |perm| && perm[r] == k
  {
    if perm[0] == k then 0 else 1 + RankOf(perm[1..], k)
  }

  predicate FirstOfID(knobs: seq<Knob>, i: nat)
    requires i < |knobs|
  {
    forall j :: 0 <= j < i ==> knobs[j].id != knobs[i].id
  }

  /** slots[i].tries: a trial is charged to the first knob carrying its id. */
  function Tries(knobs: seq<Knob>, trials: seq<Trial>, i: nat): nat
    requires i < |knobs|
  {
    if FirstOfID(knobs, i) then Moves(trials, knobs[i].id) else 0
  }

  /** A candidate that is neither the current value nor already tried. */
  predicate Fresh(k: Knob, trials: seq<Trial>, v: string) {
    v in k.domain.Candidates() && v != k.value && !Tried(trials, k.id, v)
  }

  /** The knob still has something to try. */
  ghost predicate Open(k: Knob, trials: seq<Trial>) {
    exists v :: Fresh(k, trials, v)
  }

  /** The first fresh candidate in a given order of candidate indices. */
  function FirstFresh(k: Knob, trials: seq<Trial>, order: seq<nat>): (v: Option<string>)
    requires forall i :: 0 <= i < |order| ==> order[i] < |k.domain.Candidates()|
    ensures v.Some? ==> Fresh(k, trials, v.value)
    ensures v.None? ==> forall i :: 0 <= i < |order| ==> !Fresh(k, trials, k.domain.Candidates()[order[i]])
  {
    if order == [] then None
    else
      var c := k.domain.Candidates()[order[0]];
      if c == k.value || Tried(trials, k.id, c) then FirstFresh(k, trials, order[1..]) else Some(c)
  }

  lemma CoveredOrder(k: Knob, trials: seq<Trial>, order: seq<nat>)
    requires IsPermutation(order, |k.domain.Candidates()|)
    requires forall i :: 0 <= i < |order| ==> !Fresh(k, trials, k.domain.Candidates()[order[i]])
    ensures !Open(k, trials)
  {
    var cands := k.domain.Candidates();
    forall w | w in cands ensures !Fresh(k, trials, w) {
      var j :| 0 <= j < |cands| && cands[j] == w;
      assert j in order;
    }
  }

  /** The value the sweep would move this knob to next. */
  function NextValue(o: Orders, k: Knob, trials: seq<Trial>): (v: Option<string>)
    requires o.Valid()
    ensures v.Some? ==> Fresh(k, trials, v.value)
    ensures v.None? <==> !Open(k, trials)
  {
    var order := o.values(k.id, |k.domain.Candidates()|);
    assert IsPermutation(order, |k.domain.Candidates()|);
    var v := FirstFresh(k, trials, order);
    assert v.None? ==> !Open(k, trials) by {
      if v.None? {
        CoveredOrder(k, trials, order);
      }
    }
    v
  }

  /** The cyclic order of the sweep: fewest tries first, the seeded rank breaks ties. */
  predicate Before(o: Orders, knobs: seq<Knob>, trials: seq<Trial>, i: nat, j: nat)
    requires o.Valid() && i < |knobs| && j < |knobs|
  {
    var perm := o.knobs(|knobs|);
    assert IsPermutation(perm, |knobs|);
    var a, b := Tries(knobs, trials, i), Tries(knobs, trials, j);
    a < b || (a == b && RankOf(perm, i) < RankOf(perm, j))
  }

  lemma BeforeTotal(o: Orders, knobs: seq<Knob>, trials: seq<Trial>, i: nat, j: nat)
    requires o.Valid() && i < |knobs| && j < |knobs| && i != j
    ensures Before(o, knobs, trials, i, j) != Before(o, knobs, trials, j, i)
  {
    assert IsPermutation(o.knobs(|knobs|), |knobs|);
  }

  lemma BeforeTransitive(o: Orders, knobs: seq<Knob>, trials: seq<Trial>, i: nat, j: nat, k: nat)
    requires o.Valid() && i < |knobs| && j < |knobs| && k < |knobs|
    requires Before(o, knobs, trials, i, j) && Before(o, knobs, trials, j, k)
    ensures Before(o, knobs, trials, i, k)
  {
  }

  /** Knob r is open and comes before every other open knob among the first n. */
  ghost predicate FirstOpen(o: Orders, knobs: seq<Knob>, trials: seq<Trial>, n: nat, r: nat)
    requires o.Valid() && n <= |knobs|
  {
    && r < n && Open(knobs[r], trials)
    && forall j :: 0 <= j < n && j != r && Open(knobs[j], trials) ==> Before(o, knobs, trials, r, j)
  }

  lemma FirstOpenOvertaken(o: Orders, knobs: seq<Knob>, trials: seq<Trial>, n: nat, r: nat)
    requires o.Valid() && n < |knobs| && FirstOpen(o, knobs, trials, n, r)
    requires Open(knobs[n], trials) && Before(o, knobs, trials, n, r)
    ensures FirstOpen(o, knobs, trials, n + 1, n)
  {
    forall j | 0 <= j < n && j != r && Open(knobs[j], trials) ensures Before(o, knobs, trials, n, j) {
      BeforeTransitive(o, knobs, trials, n, r, j);
    }
  }

  lemma FirstOpenStays(o: Orders, knobs: seq<Knob>, trials: seq<Trial>, n: nat, r: nat)
    requires o.Valid() && n < |knobs| && FirstOpen(o, knobs, trials, n, r)
    requires !Open(knobs[n], trials) || Before(o, knobs, trials, r, n)
    ensures FirstOpen(o, knobs, trials, n + 1, r)
  {
    forall j | 0 <= j < n + 1 && j != r && Open(knobs[j], trials) ensures Before(o, knobs, trials, r, j) {
      if j == n {
        assert Before(o, knobs, trials, r, n);
      } else {
        assert Before(o, knobs, trials, r, j);
      }
    }
  }

  lemma FirstOpenAlone(o: Orders, knobs: seq<Knob>, trials: seq<Trial>, n: nat)
    requires o.Valid() && n < |knobs| && Open(knobs[n], trials)
    requires forall j :: 0 <= j < n ==> !Open(knobs[j], trials)
    ensures FirstOpen(o, knobs, trials, n + 1, n)
  {
  }

  /** Of the best so far and knob n, the one that comes first. */
  function Better(o: Orders, knobs: seq<Knob>, trials: seq<Trial>, n: nat, r: nat): (b: nat)
    requires o.Valid() && n < |knobs| && FirstOpen(o, knobs, trials, n, r) && Open(knobs[n], trials)
    ensures FirstOpen(o, knobs, trials, n + 1, b)
  {
    BeforeTotal(o, knobs, trials, r, n);
    if Before(o, knobs, trials, r, n) then
      FirstOpenStays(o, knobs, trials, n, r);
      r
    else
      FirstOpenOvertaken(o, knobs, trials, n, r);
      n
  }

  /** r is the sweep's choice among the first n knobs, None when they are all exhausted. */
  ghost predicate BestOf(o: Orders, knobs: seq<Knob>, trials: seq<Trial>, n: nat, r: Option<nat>)
    requires o.Valid() && n <= |knobs|
  {
    match r
    case Some(i) => FirstOpen(o, knobs, trials, n, i)
    case None => forall j :: 0 <= j < n ==> !Open(knobs[j], trials)
  }

  function Extend(o: Orders, knobs: seq<Knob>, trials: seq<Trial>, n: nat, r: Option<nat>): (b: Option<nat>)
    requires o.Valid() && n < |knobs| && BestOf(o, knobs, trials, n, r)
    ensures BestOf(o, knobs, trials, n + 1, b)
  {
    if NextValue(o, knobs[n], trials).None? then
      if r.Some? then
        FirstOpenStays(o, knobs, trials, n, r.value);
        r
      else None
    else if r.None? then
      FirstOpenAlone(o, knobs, trials, n);
      Some(n)
    else Some(Better(o, knobs, trials, n, r.value))
  }

  /** Among the first n knobs, the open one that comes first. */
  function Earliest(o: Orders, knobs: seq<Knob>, trials: seq<Trial>, n: nat): (r: Option<nat>)
    requires o.Valid() && n <= |knobs|
    ensures BestOf(o, knobs, trials, n, r)
  {
    if n == 0 then None else Extend(o, knobs, trials, n - 1, Earliest(o, knobs, trials, n - 1))
  }

  /** DeterministicProposer.Propose as a function of (seed, surface, history). */
  function DetPropose(o: Orders, knobs: seq<Knob>, trials: seq<Trial>): (p: Proposal)
    requires o.Valid()
    ensures p.Propose? || p.NoProposal?
    ensures p.NoProposal? <==> forall i :: 0 <= i < |knobs| ==> !Open(knobs[i], trials)
    ensures p.Propose? ==> exists i :: 0 <= i < |knobs| && Chosen(o, knobs, trials, i, p.change)
  {
    var r := Earliest(o, knobs, trials, |knobs|);
    if r.None? then NoProposal
    else
      var k := knobs[r.value];
      var c := Change(k.id, k.value, NextValue(o, k, trials).value);
      assert Chosen(o, knobs, trials, r.value, c);
      Propose(c)
  }

  /** NewDeterministicProposer. */
  function Seeded(o: Orders): (p: (seq<Knob>, seq<Trial>) -> Proposal)
    requires o.Valid()
    ensures forall knobs, trials :: p(knobs, trials) == DetPropose(o, knobs, trials)
  {
    (knobs, trials) => DetPropose(o, knobs, trials)
  }

  /** c moves knob i to a fresh candidate, and no other open knob comes before i. */
  ghost predicate Chosen(o: Orders, knobs: seq<Knob>, trials: seq<Trial>, i: nat, c: Change)
    requires o.Valid() && i < |knobs|
  {
    && c.knobID == knobs[i].id && c.before == knobs[i].value && Fresh(knobs[i], trials, c.after)
    && FirstOpen(o, knobs, trials, |knobs|, i)
  }

  // ---- the source's slots --------------------------------------------------

  datatype Slot = Slot(index: nat, rank: nat, tries: nat)

  predicate SlotLess(a: Slot, b: Slot) {
    a.tries < b.tries || (a.tries == b.tries && a.rank < b.rank)
  }

  /** sort.SliceStable by (tries, rank). */
  function SlotInsert(s: Slot, sorted: seq<Slot>): seq<Slot> {
    if sorted == [] || !SlotLess(sorted[0], s) then [s] + sorted
    else [sorted[0]] + SlotInsert(s, sorted[1..])
  }

  function SlotSort(slots: seq<Slot>): seq<Slot> {
    if slots == [] then [] else SlotInsert(slots[0], SlotSort(slots[1..]))
  }

  ghost predicate SlotsAscend(slots: seq<Slot>) {
    forall i, j :: 0 <= i < j < |slots| ==> !SlotLess(slots[j], slots[i])
  }

  lemma {:induction false} SlotInsertSorted(s: Slot, sorted: seq<Slot>)
    requires SlotsAscend(sorted)
    ensures SlotsAscend(SlotInsert(s, sorted))
    ensures multiset(SlotInsert(s, sorted)) == multiset(sorted) + multiset{s}
  {
    if sorted != [] && SlotLess(sorted[0], s) {
      assert sorted == [sorted[0]] + sorted[1..];
      SlotInsertSorted(s, sorted[1..]);
      var rest := SlotInsert(s, sorted[1..]);
      forall j | 0 <= j < |rest| ensures !SlotLess(rest[j], sorted[0]) {
        assert rest[j] in multiset(rest);
        assert rest[j] in multiset(sorted[1..]) || rest[j] == s;
      }
    }
  }

  lemma {:induction false} SlotSortSorted(slots: seq<Slot>)
    ensures SlotsAscend(SlotSort(slots)) && multiset(SlotSort(slots)) == multiset(slots)
  {
    if slots != [] {
      SlotSortSorted(slots[1..]);
      SlotInsertSorted(slots[0], SlotSort(slots[1..]));
      assert slots == [slots[0]] + slots[1..];
    }
  }

  /** The tries array after the whole history has been charged. */
  method CountTries(knobs: seq<Knob>, trials: seq<Trial>) returns (tries: seq<nat>)
    ensures |tries| == |knobs|
    ensures forall i :: 0 <= i < |knobs| ==> tries[i] == Tries(knobs, trials, i)
  {
    tries := seq(|knobs|, i => 0);
    for t := 0 to |trials|
      invariant |tries| == |knobs|
      invariant forall i :: 0 <= i < |knobs| ==> tries[i] == Tries(knobs, trials[..t], i)
    {
      ghost var was := tries;
      var i := 0;
      var hit := false;
      while i < |knobs| && !hit
        invariant 0 <= i <= |knobs| && |tries| == |knobs|
        invariant !hit ==> tries == was && forall j :: 0 <= j < i ==> knobs[j].id != trials[t].knobID
        invariant hit ==> i < |knobs| && knobs[i].id == trials[t].knobID && FirstOfID(knobs, i)
                          && tries == was[i := was[i] + 1]
        decreases |knobs| - i, !hit
      {
        if knobs[i].id == trials[t].knobID {
          tries := tries[i := tries[i] + 1];
          hit := true;
        } else {
          i := i + 1;
        }
      }
      forall j | 0 <= j < |knobs| ensures tries[j] == Tries(knobs, trials[..t + 1], j) {
        assert trials[..t + 1] == trials[..t] + [trials[t]];
        MovesSnoc(trials[..t], trials[t], knobs[j].id);
      }
    }
    assert trials[..|trials|] == trials;
  }

  /** One slot per knob, holding its rank in the seeded cycle and its tries. */
  ghost predicate SlotsFor(o: Orders, knobs: seq<Knob>, trials: seq<Trial>, slots: seq<Slot>)
    requires o.Valid()
  {
    var perm := o.knobs(|knobs|);
    assert IsPermutation(perm, |knobs|);
    && |slots| == |knobs|
    && forall i :: 0 <= i < |slots| ==> slots[i] == Slot(i, RankOf(perm, i), Tries(knobs, trials, i))
  }

  method BuildSlots(o: Orders, knobs: seq<Knob>, trials: seq<Trial>) returns (slots: seq<Slot>)
    requires o.Valid()
    ensures SlotsFor(o, knobs, trials, slots)
  {
    var n := |knobs|;
    var perm := o.knobs(n);
    assert IsPermutation(perm, n);
    var tries := CountTries(knobs, trials);
    slots := seq(n, i => Slot(0, 0, 0));
    for rank := 0 to n
      invariant |slots| == n
      invariant forall r :: 0 <= r < rank ==> slots[perm[r]] == Slot(perm[r], r, tries[perm[r]])
    {
      slots := slots[perm[rank] := Slot(perm[rank], rank, tries[perm[rank]])];
    }
    forall i | 0 <= i < n ensures slots[i] == Slot(i, RankOf(perm, i), Tries(knobs, trials, i)) {
      assert i in perm;
      assert perm[RankOf(perm, i)] == i;
    }
  }

  lemma FirstOpenUnique(o: Orders, knobs: seq<Knob>, trials: seq<Trial>, n: nat, a: nat, b: nat)
    requires o.Valid() && n <= |knobs| && FirstOpen(o, knobs, trials, n, a) && FirstOpen(o, knobs, trials, n, b)
    ensures a == b
  {
    if a != b {
      BeforeTotal(o, knobs, trials, a, b);
    }
  }

  lemma SlotPosition(slots: seq<Slot>, s: Slot) returns (p: nat)
    requires s in slots
    ensures p < |SlotSort(slots)| && SlotSort(slots)[p] == s
  {
    SlotSortSorted(slots);
    assert s in multiset(slots);
    assert s in SlotSort(slots);
    p :| 0 <= p < |SlotSort(slots)| && SlotSort(slots)[p] == s;
  }

  lemma FirstOpenIsEarliest(o: Orders, knobs: seq<Knob>, trials: seq<Trial>, i: nat)
    requires o.Valid() && FirstOpen(o, knobs, trials, |knobs|, i)
    ensures Earliest(o, knobs, trials, |knobs|) == Some(i)
  {
    var r := Earliest(o, knobs, trials, |knobs|);
    assert BestOf(o, knobs, trials, |knobs|, r);
    if r.Some? {
      FirstOpenUnique(o, knobs, trials, |knobs|, i, r.value);
    }
  }

  lemma SlotsOrdered(o: Orders, knobs: seq<Knob>, trials: seq<Trial>, slots: seq<Slot>, i: nat, j: nat)
    requires o.Valid() && SlotsFor(o, knobs, trials, slots) && i < |knobs| && j < |knobs| && i != j
    requires !SlotLess(slots[j], slots[i])
    ensures Before(o, knobs, trials, i, j)
  {
    BeforeTotal(o, knobs, trials, i, j);
  }

  /** With every slot before at closed, another open knob's slot sorts after at. */
  lemma LaterSlot(sorted: seq<Slot>, at: nat, p: nat, knobs: seq<Knob>, trials: seq<Trial>)
    requires at < |sorted| && p < |sorted| && sorted[p].index != sorted[at].index
    requires sorted[p].index < |knobs| && Open(knobs[sorted[p].index], trials)
    requires forall q :: 0 <= q < at && sorted[q].index < |knobs| ==> !Open(knobs[sorted[q].index], trials)
    ensures p > at
  {
  }

  /** The first open slot in sorted order is the knob DetPropose picks. */
  lemma SortedSlotIsEarliest(o: Orders, knobs: seq<Knob>, trials: seq<Trial>, slots: seq<Slot>, at: nat)
    requires o.Valid() && SlotsFor(o, knobs, trials, slots) && at < |SlotSort(slots)|
    requires SlotSort(slots)[at].index < |knobs| && Open(knobs[SlotSort(slots)[at].index], trials)
    requires forall p :: 0 <= p < at && SlotSort(slots)[p].index < |knobs| ==>
               !Open(knobs[SlotSort(slots)[p].index], trials)
    ensures Earliest(o, knobs, trials, |knobs|) == Some(SlotSort(slots)[at].index)
  {
    var sorted := SlotSort(slots);
    SlotSortSorted(slots);
    var i := sorted[at].index;
    SlotOfMember(o, knobs, trials, slots, sorted[at]);
    forall j | 0 <= j < |knobs| && j != i && Open(knobs[j], trials)
      ensures Before(o, knobs, trials, i, j)
    {
      var p := SlotPosition(slots, slots[j]);
      LaterSlot(sorted, at, p, knobs, trials);
      SlotsOrdered(o, knobs, trials, slots, i, j);
    }
    FirstOpenIsEarliest(o, knobs, trials, i);
  }

  lemma SlotOfMember(o: Orders, knobs: seq<Knob>, trials: seq<Trial>, slots: seq<Slot>, s: Slot)
    requires o.Valid() && SlotsFor(o, knobs, trials, slots) && s in SlotSort(slots)
    ensures s.index < |knobs| && s == slots[s.index]
  {
    SlotSortSorted(slots);
    assert s in multiset(SlotSort(slots));
    assert s in slots;
  }

  /** Every knob's slot survives the sort. */
  lemma AllSlotsSorted(o: Orders, knobs: seq<Knob>, trials: seq<Trial>, slots: seq<Slot>)
    requires o.Valid() && SlotsFor(o, knobs, trials, slots)
    requires forall s :: s in SlotSort(slots) ==> s.index < |knobs| && !Open(knobs[s.index], trials)
    ensures forall i :: 0 <= i < |knobs| ==> !Open(knobs[i], trials)
  {
    SlotSortSorted(slots);
    forall i | 0 <= i < |knobs| ensures !Open(knobs[i], trials) {
      assert slots[i] in multiset(slots);
      assert slots[i] in SlotSort(slots);
      assert slots[i].index == i;
    }
  }

  /** DeterministicProposer.Propose as the source computes it. */
  method ProposeNext(o: Orders, knobs: seq<Knob>, trials: seq<Trial>, ctxDone: bool) returns (p: Proposal)
    requires o.Valid()
    ensures p == if ctxDone then Canceled else DetPropose(o, knobs, trials)
  {
    if ctxDone {
      return Canceled;
    }
    if |knobs| == 0 {
      return NoProposal;
    }
    var slots := BuildSlots(o, knobs, trials);
    var sorted := SlotSort(slots);
    for at := 0 to |sorted|
      invariant forall q :: 0 <= q < at ==> sorted[q].index < |knobs| && !Open(knobs[sorted[q].index], trials)
    {
      SlotOfMember(o, knobs, trials, slots, sorted[at]);
      var k := knobs[sorted[at].index];
      var cands := k.domain.Candidates();
      if |cands| == 0 {
        continue;
      }
      var order := o.values(k.id, |cands|);
      assert IsPermutation(order, |cands|);
      for vi := 0 to |order|
        invariant FirstFresh(k, trials, order) == FirstFresh(k, trials, order[vi..])
      {
        var v := cands[order[vi]];
        assert order[vi..][0] == order[vi] && order[vi..][1..] == order[vi + 1..];
        var tried := HasTried(trials, k.id, v);
        if v == k.value || tried {
          continue;
        }
        assert NextValue(o, k, trials) == Some(v);
        SortedSlotIsEarliest(o, knobs, trials, slots, at);
        return Propose(Change(k.id, k.value, v));
      }
      assert NextValue(o, k, trials).None?;
    }
    AllSlotsSorted(o, knobs, trials, slots);
    return NoProposal;
  }

  // ---- the optional model --------------------------------------------------

  function IndexOfChar(s: string, c: char): (i: nat)
    ensures i <= |s| && (i < |s| ==> s[i] == c)
  {
    if s == [] || s[0] == c then 0 else 1 + IndexOfChar(s[1..], c)
  }

  /** ReplaceAll "\r\n" by "\n". */
  function UnixLines(s: string): string {
    if |s| >= 2 && s[0] == '\r' && s[1] == '\n' then ['\n'] + UnixLines(s[2..])
    else if s == [] then []
    else [s[0]] + UnixLines(s[1..])
  }

  /** Strip one Markdown fence around the answer, if there is one. */
  function Unfence(s: string): string {
    if "```" <= s then
      var nl := IndexOfChar(s, '\n');
      var body := Trim(if nl < |s| then s[nl + 1..] else s);
      Trim(if HasSuffix(body, "```") then body[..|body| - 3] else body)
    else s
  }

  /** sanitizePrompt: a model answer that is safe to write, or "". */
  function Sanitize(out: string, d: Domain): (s: string)
    ensures s != "" ==> d.Allows(s)
  {
    var s := UnixLines(Unfence(Trim(out)));
    if d.Allows(s) then s else ""
  }

  /** proposePrompt: rewrite the first text knob, unless the answer is unusable. */
  function PromptMove(rewrite: (Knob, seq<Trial>) -> Option<string>, knobs: seq<Knob>,
                      trials: seq<Trial>): Option<Change> {
    if knobs == [] then None
    else
      var k := knobs[0];
      if k.domain.kind != KnobText then PromptMove(rewrite, knobs[1..], trials)
      else
        var out := rewrite(k, trials);
        if out.None? then None
        else
          var next := Sanitize(out.value, k.domain);
          if next == "" || next == k.value || Tried(trials, k.id, next) then None
          else Some(Change(k.id, k.value, next))
  }

  /** LLMProposer.Propose over the deterministic fallback. */
  function LlmPropose(o: Orders, rewrite: Option<(Knob, seq<Trial>) -> Option<string>>, every: int,
                      knobs: seq<Knob>, trials: seq<Trial>): Proposal
    requires o.Valid()
  {
    if rewrite.None? || (every > 1 && |trials| % every != 0) then DetPropose(o, knobs, trials)
    else
      var c := PromptMove(rewrite.value, knobs, trials);
      if c.Some? then Propose(c.value) else DetPropose(o, knobs, trials)
  }

  /** A prompt move rewrites a text knob, honestly, to an allowed value never tried. */
  lemma {:induction false} PromptMoveSound(rewrite: (Knob, seq<Trial>) -> Option<string>, knobs: seq<Knob>,
                                           trials: seq<Trial>)
    returns (i: nat)
    requires PromptMove(rewrite, knobs, trials).Some?
    ensures var c := PromptMove(rewrite, knobs, trials).value;
            && i < |knobs| && knobs[i].domain.kind == KnobText
            && c.knobID == knobs[i].id && c.before == knobs[i].value
            && c.after != c.before && knobs[i].domain.Allows(c.after) && !Tried(trials, c.knobID, c.after)
  {
    if knobs[0].domain.kind != KnobText {
      var j := PromptMoveSound(rewrite, knobs[1..], trials);
      i := j + 1;
    } else {
      i := 0;
    }
  }
}
