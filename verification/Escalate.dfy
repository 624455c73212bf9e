/** pkg/agents/escalate.go and the id helpers of factory.go and pkg/plan/routing.go: the
    escalation roster, as an id printer and parser and a list derived from them. */
module Escalate {
  import opened Text
  import opened Decimal
  import opened Float64

  /** plan.EscalationSuffix. The comments of the source speak of a bare '@'; the constant has
      three letters after it. */
  const SUFFIX: string := "@esc"

  const MAX_ESCALATION_RUNGS: nat := 3

  predicate OccursAt(s: string, i: nat) { i + 4 <= |s| && s[i..i + 4] == SUFFIX }

  /** The suffix stands at i if the string is cut there in front of it. */
  lemma OccursIff(s: string, i: nat)
    ensures OccursAt(s, i) <==> exists a: string, b: string :: s == a + "@esc" + b && |a| == i
  {
    if OccursAt(s, i) {
      assert s == s[..i] + "@esc" + s[i + 4..];
    }
    if a: string, b: string :| s == a + "@esc" + b && |a| == i {
      assert s[i..i + 4] == "@esc";
    }
  }

  /** strings.LastIndex of the suffix. */
  function LastSuffix(s: string): (r: Option<nat>)
    ensures r.Some? ==> OccursAt(s, r.value) && forall j: nat :: j > r.value ==> !OccursAt(s, j)
    ensures r.None? ==> forall j: nat :: !OccursAt(s, j)
  {
    SearchDown(s, |s|)
  }

  function SearchDown(s: string, n: nat): (r: Option<nat>)
    requires n <= |s| && forall j: nat :: j > n ==> !OccursAt(s, j)
    ensures r.Some? ==> OccursAt(s, r.value) && forall j: nat :: j > r.value ==> !OccursAt(s, j)
    ensures r.None? ==> forall j: nat :: !OccursAt(s, j)
  {
    if OccursAt(s, n) then Some(n) else if n == 0 then None else SearchDown(s, n - 1)
  }

  function EscalatedRoleID(role: string, rung: int): string {
    var role := Trim(role);
    if rung <= 0 || role == "" then role else role + SUFFIX + Itoa(rung)
  }

  /** BaseRoleID: the base role and the rung, 0 for an id that names none. */
  function BaseRoleID(id: string): (string, int) {
    var i := LastSuffix(id);
    if i.None? then (id, 0)
    else
      var rung := Atoi(id[i.value + 4..]);
      if rung.None? || rung.value <= 0 then (id, 0) else (id[..i.value], rung.value)
  }

  predicate IsEscalated(id: string) { BaseRoleID(id).1 > 0 }

  // ---- printing and parsing ------------------------------------------------

  lemma {:induction false} DigitsNoAt(n: nat)
    ensures forall i :: 0 <= i < |Digits(n)| ==> Digits(n)[i] != '@'
  {
    if n >= 10 {
      DigitsNoAt(n / 10);
    }
  }

  lemma LastSuffixIs(s: string, i: nat)
    requires OccursAt(s, i) && forall j: nat :: j > i ==> !OccursAt(s, j)
    ensures LastSuffix(s) == Some(i)
  {
  }

  lemma PrintedSplits(role: string, n: nat)
    requires n > 0
    ensures LastSuffix(role + SUFFIX + Itoa(n)) == Some(|role|)
    ensures (role + SUFFIX + Itoa(n))[..|role|] == role && (role + SUFFIX + Itoa(n))[|role| + 4..] == Itoa(n)
  {
    var s := role + SUFFIX + Itoa(n);
    DigitsNoAt(n);
    assert s[|role|..|role| + 4] == SUFFIX;
    forall j: nat | j > |role| ensures !OccursAt(s, j) {
      if j + 4 <= |s| {
        assert s[j..j + 4][0] == s[j] != '@';
      }
    }
    LastSuffixIs(s, |role|);
  }

  /** Parsing undoes printing, for every role name, whatever separators it contains, and every
      positive 64-bit rung. */
  lemma PrintParse(role: string, n: int)
    requires Trim(role) != "" && 0 < n <= MAX_INT64
    ensures BaseRoleID(EscalatedRoleID(role, n)) == (Trim(role), n)
  {
    PrintedSplits(Trim(role), n);
    AtoiItoa(n);
  }

  /** The way back: printing what was parsed gives the id again if and only if the id is spelled
      as the printer spells: a trimmed, non-empty base and a rung without sign or leading zero. */
  lemma ParsePrintIff(id: string)
    ensures var (base, rung) := BaseRoleID(id);
            (EscalatedRoleID(base, rung) == id) <==>
            (if rung == 0 then Trim(id) == id
             else base != "" && Trim(base) == base && id[|base| + 4..] == Itoa(rung))
  {
    var (base, rung) := BaseRoleID(id);
    if rung > 0 {
      var i := LastSuffix(id).value;
      assert id == base + SUFFIX + id[i + 4..];
      TrimShort(base);
      if EscalatedRoleID(base, rung) == id {
        SplitUnique(base, Trim(base), id[i + 4..], rung, id);
      }
    }
  }

  lemma {:induction false} TrimShort(s: string)
    ensures |Trim(s)| <= |s|
  {
    TrimLeftShort(s);
    TrimRightKeepsHead(TrimLeft(s));
  }

  lemma {:induction false} TrimLeftShort(s: string)
    ensures |TrimLeft(s)| <= |s|
  {
    if s != [] && IsSpace(s[0]) {
      TrimLeftShort(s[1..]);
    }
  }

  /** An id splits at its last suffix in one way. */
  lemma SplitUnique(base: string, trimmed: string, text: string, rung: int, id: string)
    requires rung > 0 && id == base + SUFFIX + text && LastSuffix(id) == Some(|base|)
    requires trimmed == Trim(base) && id == EscalatedRoleID(base, rung)
    ensures trimmed != "" && trimmed == base && text == Itoa(rung)
  {
    assert |id| >= 4;
    if trimmed != "" {
      PrintedSplits(trimmed, rung);
      assert |trimmed| == |base|;
      assert id[..|base|] == base;
    }
  }

  /** The parser is more generous than the printer: a leading zero does not come back. */
  lemma LeadingZeroDoesNotReturn()
    ensures BaseRoleID("a@esc01") == ("a", 1) && EscalatedRoleID("a", 1) == "a@esc1"
  {
    var id := "a@esc01";
    assert OccursAt(id, 1);
    assert forall j: nat :: j > 1 && OccursAt(id, j) ==> id[j] == '@';
    LastSuffixIs(id, 1);
    var text := id[5..];
    assert text == ['0', '1'];
    assert text[..1] == ['0'] && ['0'][..0] == [];
    assert Value(text) == 1 && Atoi(text) == Some(1);
    assert id[..1] == "a";
    TrimIsTrimmed("a");
    assert Digits(1) == "1";
  }

  // ---- the other parser ----------------------------------------------------

  predicate AllZeros(s: string) { forall i :: 0 <= i < |s| ==> s[i] == '0' }

  /** plan.baseRoleID, a second implementation of the same rule. */
  function PlanBase(id: string): string {
    var i := LastSuffix(id);
    if i.None? then id
    else
      var rung := id[i.value + 4..];
      if rung == "" || !AllDigits(rung) || AllZeros(rung) then id else id[..i.value]
  }

  lemma {:induction false} ZerosAreZero(s: string)
    requires AllDigits(s)
    ensures AllZeros(s) <==> Value(s) == 0
  {
    if s != [] {
      ZerosAreZero(s[..|s| - 1]);
      if AllZeros(s[..|s| - 1]) && s[|s| - 1] == '0' {
        assert forall i :: 0 <= i < |s| - 1 ==> s[i] == s[..|s| - 1][i];
      }
      if Value(s) == 0 {
        assert DigitValue(s[|s| - 1]) == 0;
      }
    }
  }

  /** A rung only the first parser accepts: written with a plus sign. */
  predicate PlusSigned(text: string) {
    text != "" && text[0] == '+' && Atoi(text).Some? && Atoi(text).value > 0
  }

  /** A rung only the second accepts: too large for an int. */
  predicate Oversized(text: string) { text != "" && AllDigits(text) && Value(text) > MAX_INT64 }

  /** The two implementations agree on an id if and only if its rung, if any, has no plus sign
      and fits an int. */
  lemma ParsersAgreeIff(id: string)
    ensures PlanBase(id) == BaseRoleID(id).0 <==>
              LastSuffix(id).None?
              || (!PlusSigned(id[LastSuffix(id).value + 4..]) && !Oversized(id[LastSuffix(id).value + 4..]))
  {
    var at := LastSuffix(id);
    if at.Some? {
      var text := id[at.value + 4..];
      assert id[..at.value] != id by {
        assert |id[..at.value]| < |id|;
      }
      if text != "" && AllDigits(text) {
        ZerosAreZero(text);
      }
    }
  }

  // ---- the roster ----------------------------------------------------------

  datatype RoleSpec = RoleSpec(id: string, title: string, model: string, tools: seq<string>, maxTokens: int,
                               jsonOnly: bool, schemaRole: string, serialTools: bool, stopSequences: seq<string>)

  const ESCALABLE: set<string> := {"worker", "deep", "corrector", "reviewer", "editor", "reviewer-strict"}

  predicate IsEscalableRole(id: string) {
    var base := ToLower(Trim(BaseRoleID(id).0));
    base in ESCALABLE || HasSuffix(base, "-worker") || HasSuffix(base, "-corrector")
  }

  /** SetEscalation: the first three names that are not blank, trimmed. */
  function Ladder(models: seq<string>): (clean: seq<string>)
    ensures |clean| <= MAX_ESCALATION_RUNGS
    ensures forall i :: 0 <= i < |clean| ==> clean[i] != "" && Trim(clean[i]) == clean[i]
  {
    if models == [] then []
    else
      var before := Ladder(models[..|models| - 1]);
      var m := Trim(models[|models| - 1]);
      TrimIsTrimmed(models[|models| - 1]);
      if m == "" || |before| >= MAX_ESCALATION_RUNGS then before else before + [m]
  }

  /** The names that are not blank, trimmed. */
  function Usable(models: seq<string>): seq<string> {
    if models == [] then []
    else (if Trim(models[0]) == "" then [] else [Trim(models[0])]) + Usable(models[1..])
  }

  lemma {:induction false} UsableSnoc(models: seq<string>, m: string)
    ensures Usable(models + [m]) == Usable(models) + if Trim(m) == "" then [] else [Trim(m)]
  {
    if models == [] {
      assert [m][1..] == [] && [] + [m] == [m];
    } else {
      UsableSnoc(models[1..], m);
      assert (models + [m])[1..] == models[1..] + [m];
    }
  }

  function FirstThree(names: seq<string>): seq<string> { if |names| <= 3 then names else names[..3] }

  lemma FirstThreeSnoc(names: seq<string>, more: seq<string>)
    requires |more| <= 1
    ensures FirstThree(names + more) == if |FirstThree(names)| >= 3 then FirstThree(names) else FirstThree(names) + more
  {
  }

  /** The ladder is the first three usable names, in their order, or all of them if they are fewer. */
  lemma {:induction false} LadderIs(models: seq<string>)
    ensures Ladder(models) == FirstThree(Usable(models))
  {
    if models != [] {
      var front, last := models[..|models| - 1], models[|models| - 1];
      var more := if Trim(last) == "" then [] else [Trim(last)];
      LadderIs(front);
      UsableSnoc(front, last);
      assert models == front + [last];
      FirstThreeSnoc(Usable(front), more);
      assert Ladder(front) + [] == Ladder(front);
    }
  }

  /** A role without a model of its own answers with the one the factory falls back to. */
  lemma NoModelFallsBack(spec: RoleSpec, fallback: string)
    requires Trim(spec.model) == ""
    ensures EffectiveModel(spec, fallback) == fallback
  {
  }

  /** Who gets a ladder: six roles by name, and every specialised worker and corrector. */
  lemma EscalableIff(id: string)
    ensures var base := ToLower(Trim(BaseRoleID(id).0));
            IsEscalableRole(id) <==>
              || base in ["worker", "deep", "corrector", "reviewer", "editor", "reviewer-strict"]
              || (exists p: string :: base == p + "-worker") || (exists p: string :: base == p + "-corrector")
  {
    var base := ToLower(Trim(BaseRoleID(id).0));
    SuffixIff(base, "-worker");
    SuffixIff(base, "-corrector");
  }

  class Factory {
    var escalation: seq<string>

    constructor ()
      ensures escalation == []
    {
      escalation := [];
    }

    method SetEscalation(models: seq<string>)
      modifies this
      ensures escalation == Ladder(models)
    {
      var clean: seq<string> := [];
      for i := 0 to |models|
        invariant clean == Ladder(models[..i])
      {
        assert models[..i + 1][..i] == models[..i];
        var m := Trim(models[i]);
        if m == "" || |clean| >= MAX_ESCALATION_RUNGS {
          continue;
        }
        clean := clean + [m];
      }
      assert models[..|models|] == models;
      escalation := clean;
    }

    /** escalatedSpecs. */
    method EscalatedSpecs(specs: seq<RoleSpec>) returns (out: seq<RoleSpec>)
      ensures out == Derived(specs, escalation)
    {
      out := [];
      if |escalation| == 0 {
        NothingDerived(specs);
        return;
      }
      for i := 0 to |specs|
        invariant out == Derived(specs[..i], escalation)
      {
        assert specs[..i + 1][..i] == specs[..i];
        var spec := specs[i];
        if !IsEscalableRole(spec.id) || IsEscalated(spec.id) {
          continue;
        }
        ghost var before := out;
        for rung := 1 to |escalation| + 1
          invariant out == before + Rungs(spec, escalation, rung - 1)
        {
          out := out + [Variant(spec, rung, escalation[rung - 1])];
        }
      }
      assert specs[..|specs|] == specs;
    }
  }

  /** One rung of one role: the base in everything but id, model and title. */
  function Variant(spec: RoleSpec, rung: int, model: string): RoleSpec {
    spec.(id := EscalatedRoleID(spec.id, rung), model := model, title := spec.title + " (escalated)")
  }

  function Rungs(spec: RoleSpec, ladder: seq<string>, n: nat): (r: seq<RoleSpec>)
    requires n <= |ladder|
    ensures |r| == n
    ensures forall i :: 0 <= i < n ==> r[i] == Variant(spec, i + 1, ladder[i])
  {
    if n == 0 then [] else Rungs(spec, ladder, n - 1) + [Variant(spec, n, ladder[n - 1])]
  }

  /** A role that gets a ladder. */
  predicate Climbs(spec: RoleSpec) { IsEscalableRole(spec.id) && !IsEscalated(spec.id) }

  /** What one role adds to the roster. */
  function LadderOf(spec: RoleSpec, ladder: seq<string>): seq<RoleSpec> {
    if Climbs(spec) then Rungs(spec, ladder, |ladder|) else []
  }

  /** Apply a list-valued function to every element and append the results. */
  function Expand<A, B>(f: A -> seq<B>, xs: seq<A>): seq<B> {
    if xs == [] then [] else Expand(f, xs[..|xs| - 1]) + f(xs[|xs| - 1])
  }

  lemma {:induction false} ExpandMember<A, B>(f: A -> seq<B>, xs: seq<A>, y: B) returns (x: A)
    requires y in Expand(f, xs)
    ensures x in xs && y in f(x)
  {
    if y in Expand(f, xs[..|xs| - 1]) {
      x := ExpandMember(f, xs[..|xs| - 1], y);
    } else {
      x := xs[|xs| - 1];
    }
  }

  function Derived(specs: seq<RoleSpec>, ladder: seq<string>): seq<RoleSpec> {
    Expand(spec => LadderOf(spec, ladder), specs)
  }

  lemma {:induction false} NothingDerived(specs: seq<RoleSpec>)
    ensures Derived(specs, []) == []
  {
    if specs != [] {
      NothingDerived(specs[..|specs| - 1]);
    }
  }

  lemma RungIsVariant(spec: RoleSpec, ladder: seq<string>, v: RoleSpec) returns (rung: nat)
    requires v in Rungs(spec, ladder, |ladder|)
    ensures 1 <= rung <= |ladder| && v == Variant(spec, rung, ladder[rung - 1])
  {
    var i :| 0 <= i < |ladder| && Rungs(spec, ladder, |ladder|)[i] == v;
    rung := i + 1;
  }

  /** Every derived spec is a rung of a role of the base list. */
  lemma DerivedIsVariant(specs: seq<RoleSpec>, ladder: seq<string>, v: RoleSpec) returns (base: RoleSpec, rung: nat)
    requires v in Derived(specs, ladder)
    ensures base in specs && Climbs(base)
    ensures 1 <= rung <= |ladder| && v == Variant(base, rung, ladder[rung - 1])
  {
    base := ExpandMember(spec => LadderOf(spec, ladder), specs, v);
    rung := RungIsVariant(base, ladder, v);
  }

  lemma {:induction false} ExpandHolds<A, B>(f: A -> seq<B>, xs: seq<A>, x: A, y: B)
    requires x in xs && y in f(x)
    ensures y in Expand(f, xs)
  {
    if x != xs[|xs| - 1] {
      ExpandHolds(f, xs[..|xs| - 1], x, y);
    }
  }

  /** And every rung of every role that climbs is there. */
  lemma EveryRungDerived(specs: seq<RoleSpec>, ladder: seq<string>, base: RoleSpec, rung: nat)
    requires base in specs && IsEscalableRole(base.id) && !IsEscalated(base.id) && 1 <= rung <= |ladder|
    ensures base.(id := EscalatedRoleID(base.id, rung), model := ladder[rung - 1],
                  title := base.title + " (escalated)") in Derived(specs, ladder)
  {
    var rungs := Rungs(base, ladder, |ladder|);
    assert rungs[rung - 1] == Variant(base, rung, ladder[rung - 1]);
    ExpandHolds(spec => LadderOf(spec, ladder), specs, base, rungs[rung - 1]);
  }

  /** A rung decodes exactly like its base and is pinned to the ladder's model. */
  lemma RungInheritsContract(specs: seq<RoleSpec>, models: seq<string>, v: RoleSpec) returns (base: RoleSpec, rung: nat)
    requires v in Derived(specs, Ladder(models))
    ensures base in specs && 1 <= rung <= |Ladder(models)| && v.id == EscalatedRoleID(base.id, rung)
    ensures v.jsonOnly == base.jsonOnly && v.schemaRole == base.schemaRole && v.serialTools == base.serialTools
    ensures v.stopSequences == base.stopSequences && v.tools == base.tools && v.maxTokens == base.maxTokens
    ensures v.title == base.title + " (escalated)"
    ensures forall fallback :: EffectiveModel(v, fallback) == Ladder(models)[rung - 1]
  {
    base, rung := DerivedIsVariant(specs, Ladder(models), v);
  }

  /** EffectiveModel: the spec's own model, else whatever the factory would choose. */
  function EffectiveModel(spec: RoleSpec, fallback: string): string {
    if Trim(spec.model) != "" then Trim(spec.model) else fallback
  }

  // ---- classification ------------------------------------------------------

  const CODING: set<string> := {"worker", "deep", "corrector", "tester", "placeholder", "explorer", "docs"}

  const LIGHT: set<string> := {
    "reviewer", "coordinator", "splitter", "planner", "context", "architect", "clarifier", "interviewer",
    "orchestrator", "memory", "docs", "escalate", "composer", "manager", "triage"
  }

  predicate IsCodingRole(id: string) { BaseRoleID(id).0 in CODING }

  predicate IsLightAgent(id: string) { ToLower(BaseRoleID(id).0) in LIGHT }

  const GENERICS: seq<string> := ["worker", "tester", "reviewer", "corrector", "explorer", "planner", "splitter",
                                  "architect", "editor", "describer", "manager", "triage"]

  function FirstGeneric(id: string, suffixes: seq<string>): string {
    if suffixes == [] then id
    else if id == suffixes[0] || HasSuffix(id, "-" + suffixes[0]) then suffixes[0]
    else FirstGeneric(id, suffixes[1..])
  }

  function GenericRole(id: string): string { FirstGeneric(BaseRoleID(id).0, GENERICS) }

  /** A rung is classified exactly as the role it stands in for, by every helper. */
  lemma RungKeepsClass(id: string, rung: int)
    requires Trim(id) == id && id != "" && !IsEscalated(id) && 0 < rung <= MAX_INT64
    ensures var v := EscalatedRoleID(id, rung);
            && (IsCodingRole(v) <==> IsCodingRole(id)) && (IsLightAgent(v) <==> IsLightAgent(id))
            && GenericRole(v) == GenericRole(id) && (IsEscalableRole(v) <==> IsEscalableRole(id))
  {
    PrintParse(id, rung);
  }

  /** Padding breaks it: the rung's id is trimmed and the base's is not, so a padded id keeps its
      coding class if and only if its trimmed form is not a coding role. */
  lemma PaddedRungKeepsClassIff(id: string, rung: int)
    requires Trim(id) != "" && Trim(id) != id && !IsEscalated(id) && 0 < rung <= MAX_INT64
    ensures (IsCodingRole(EscalatedRoleID(id, rung)) <==> IsCodingRole(id)) <==> Trim(id) !in CODING
  {
    PrintParse(id, rung);
    if id in CODING {
      CodingTrimmed(id);
    }
  }

  lemma CodingTrimmed(id: string)
    requires id in CODING
    ensures Trim(id) == id
  {
    TrimIsTrimmed(id);
  }
}
