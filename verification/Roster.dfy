/** Distinct ids in AllSpecs: the base roles and every rung derived from them. */
module Roster {
  import opened Text
  import opened Decimal
  import opened Escalate
  import opened Registry

  ghost predicate Disjoint(a: seq<string>, b: seq<string>) {
    forall s :: s in a ==> s !in b
  }

  lemma NoRepeatConcat(a: seq<string>, b: seq<string>)
    ensures NoRepeat(a + b) <==> NoRepeat(a) && NoRepeat(b) && Disjoint(a, b)
  {
    var all := a + b;
    if NoRepeat(all) {
      forall i, j | 0 <= i < j < |b| ensures b[i] != b[j] {
        assert all[|a| + i] != all[|a| + j];
      }
      forall i, j | 0 <= i < |a| && 0 <= j < |b| ensures a[i] != b[j] {
        assert all[i] != all[|a| + j];
      }
      forall i, j | 0 <= i < j < |a| ensures a[i] != a[j] {
        assert all[i] != all[j];
      }
    }
    if NoRepeat(a) && NoRepeat(b) && Disjoint(a, b) {
      forall i, j | 0 <= i < j < |all| ensures all[i] != all[j] {
        if i < |a| <= j {
          assert a[i] in a && b[j - |a|] in b;
        }
      }
    }
  }

  // ---- rungs of any naming scheme ------------------------------------------

  /** Which ids get rungs, how a rung is printed, and what two ids with a common rung share. */
  datatype Naming = Naming(climbs: string -> bool, spell: (string, nat) -> string, key: string -> string)

  ghost predicate Injective(nm: Naming, limit: nat) {
    forall a, b, i: nat, j: nat ::
      (nm.climbs(a) && nm.climbs(b) && 1 <= i <= limit && 1 <= j <= limit && nm.spell(a, i) == nm.spell(b, j)) ==>
      (nm.key(a) == nm.key(b) && i == j)
  }

  function RungNames(nm: Naming, id: string, n: nat): (r: seq<string>)
    ensures |r| == n
    ensures forall i :: 0 <= i < n ==> r[i] == nm.spell(id, i + 1)
  {
    if n == 0 then [] else RungNames(nm, id, n - 1) + [nm.spell(id, n)]
  }

  function DerivedNames(nm: Naming, ids: seq<string>, n: nat): seq<string> {
    if ids == [] then []
    else
      var id := ids[|ids| - 1];
      DerivedNames(nm, ids[..|ids| - 1], n) + if nm.climbs(id) then RungNames(nm, id, n) else []
  }

  lemma {:induction false} DerivedFrom(nm: Naming, ids: seq<string>, n: nat, s: string) returns (j: nat, rung: nat)
    requires s in DerivedNames(nm, ids, n)
    ensures j < |ids| && nm.climbs(ids[j]) && 1 <= rung <= n && s == nm.spell(ids[j], rung)
  {
    var front, last := ids[..|ids| - 1], ids[|ids| - 1];
    if s in DerivedNames(nm, front, n) {
      j, rung := DerivedFrom(nm, front, n, s);
    } else {
      var i :| 0 <= i < n && RungNames(nm, last, n)[i] == s;
      j, rung := |ids| - 1, i + 1;
    }
  }

  lemma {:induction false} DerivedHas(nm: Naming, ids: seq<string>, n: nat, j: nat, rung: nat)
    requires j < |ids| && nm.climbs(ids[j]) && 1 <= rung <= n
    ensures nm.spell(ids[j], rung) in DerivedNames(nm, ids, n)
  {
    if j == |ids| - 1 {
      assert RungNames(nm, ids[j], n)[rung - 1] == nm.spell(ids[j], rung);
    } else {
      DerivedHas(nm, ids[..|ids| - 1], n, j, rung);
    }
  }

  /** Ids with a ladder differ in what their rungs are printed from. */
  ghost predicate Apart(nm: Naming, ids: seq<string>) {
    forall i, j :: 0 <= i < j < |ids| && nm.climbs(ids[i]) && nm.climbs(ids[j]) ==> nm.key(ids[i]) != nm.key(ids[j])
  }

  lemma OthersRungs(nm: Naming, ids: seq<string>, n: nat)
    requires ids != [] && Apart(nm, ids) && Injective(nm, n) && nm.climbs(ids[|ids| - 1])
    ensures Disjoint(DerivedNames(nm, ids[..|ids| - 1], n), RungNames(nm, ids[|ids| - 1], n))
  {
    var front, last := ids[..|ids| - 1], ids[|ids| - 1];
    var derived, rungs := DerivedNames(nm, front, n), RungNames(nm, last, n);
    forall s | s in derived ensures s !in rungs {
      var j, rung := DerivedFrom(nm, front, n, s);
      forall i | 0 <= i < n ensures RungNames(nm, last, n)[i] != s {
        assert front[j] == ids[j];
        assert RungNames(nm, last, n)[i] == nm.spell(last, i + 1);
      }
    }
  }

  lemma {:induction false} DerivedDistinct(nm: Naming, ids: seq<string>, n: nat)
    requires Apart(nm, ids) && Injective(nm, n)
    ensures NoRepeat(DerivedNames(nm, ids, n))
  {
    if ids != [] {
      var front, last := ids[..|ids| - 1], ids[|ids| - 1];
      DerivedDistinct(nm, front, n);
      if nm.climbs(last) {
        OthersRungs(nm, ids, n);
        NoRepeatConcat(DerivedNames(nm, front, n), RungNames(nm, last, n));
      } else {
        assert DerivedNames(nm, ids, n) == DerivedNames(nm, front, n);
      }
    }
  }

  /** No base id is spelled like a derived rung. */
  ghost predicate NoneSpelled(nm: Naming, ids: seq<string>, n: nat) {
    forall i, j, rung: nat :: 0 <= i < |ids| && 0 <= j < |ids| && nm.climbs(ids[j]) && 1 <= rung <= n ==>
      ids[i] != nm.spell(ids[j], rung)
  }

  lemma NamesDistinctIff(nm: Naming, ids: seq<string>, n: nat)
    requires NoRepeat(ids) && Apart(nm, ids) && Injective(nm, n)
    ensures NoRepeat(ids + DerivedNames(nm, ids, n)) <==> NoneSpelled(nm, ids, n)
  {
    var derived := DerivedNames(nm, ids, n);
    DerivedDistinct(nm, ids, n);
    NoRepeatConcat(ids, derived);
    if Disjoint(ids, derived) {
      forall i, j, rung: nat | 0 <= i < |ids| && 0 <= j < |ids| && nm.climbs(ids[j]) && 1 <= rung <= n
        ensures ids[i] != nm.spell(ids[j], rung)
      {
        DerivedHas(nm, ids, n, j, rung);
        assert ids[i] in ids;
      }
    } else {
      var s :| s in ids && s in derived;
      var i :| 0 <= i < |ids| && ids[i] == s;
      var j, rung := DerivedFrom(nm, ids, n, s);
      assert ids[i] == nm.spell(ids[j], rung);
    }
  }

  // ---- the scheme of the source --------------------------------------------

  function ByEscalation(): Naming {
    Naming(id => IsEscalableRole(id) && !IsEscalated(id), (id, n) => EscalatedRoleID(id, n), id => Trim(id))
  }

  lemma ClimberIsNamed(id: string)
    requires IsEscalableRole(id) && !IsEscalated(id)
    ensures Trim(id) != ""
  {
  }

  lemma EscalationInjective()
    ensures Injective(ByEscalation(), MAX_ESCALATION_RUNGS)
  {
    var nm := ByEscalation();
    forall a, b, i: nat, j: nat |
      nm.climbs(a) && nm.climbs(b) && 1 <= i <= MAX_ESCALATION_RUNGS && 1 <= j <= MAX_ESCALATION_RUNGS
      && nm.spell(a, i) == nm.spell(b, j)
      ensures nm.key(a) == nm.key(b) && i == j
    {
      ClimberIsNamed(a);
      ClimberIsNamed(b);
      PrintParse(a, i);
      PrintParse(b, j);
    }
  }

  lemma IDsConcat(a: seq<RoleSpec>, b: seq<RoleSpec>)
    ensures IDs(a + b) == IDs(a) + IDs(b)
  {
  }

  lemma RungIDs(spec: RoleSpec, ladder: seq<string>)
    ensures IDs(Rungs(spec, ladder, |ladder|)) == RungNames(ByEscalation(), spec.id, |ladder|)
  {
  }

  lemma {:induction false} DerivedIDs(specs: seq<RoleSpec>, ladder: seq<string>)
    ensures IDs(Derived(specs, ladder)) == DerivedNames(ByEscalation(), IDs(specs), |ladder|)
  {
    if specs != [] {
      var front, last := specs[..|specs| - 1], specs[|specs| - 1];
      DerivedIDs(front, ladder);
      RungIDs(last, ladder);
      IDsConcat(Derived(front, ladder), if Climbs(last) then Rungs(last, ladder, |ladder|) else []);
      assert IDs(specs)[..|specs| - 1] == IDs(front);
    }
  }

  /** Ids that differ also differ in what their rungs are printed from, once they are trimmed. */
  lemma TrimmedApart(ids: seq<string>)
    requires NoRepeat(ids) && forall s :: s in ids ==> Trim(s) == s
    ensures Apart(ByEscalation(), ids)
  {
    var nm := ByEscalation();
    forall i, j | 0 <= i < j < |ids| && nm.climbs(ids[i]) && nm.climbs(ids[j])
      ensures nm.key(ids[i]) != nm.key(ids[j])
    {
      assert ids[i] in ids && ids[j] in ids;
    }
  }

  /** What AllSpecs is given: distinct trimmed built-in ids, and files and blocks whose ids went
      through NormalizeCustom. */
  ghost predicate Loaded(builtins: seq<RoleSpec>, customs: seq<Custom>, extras: seq<Custom>) {
    && NoRepeat(IDs(builtins)) && (forall s :: s in IDs(builtins) ==> Trim(s) == s)
    && (forall c :: c in customs || c in extras ==> exists raw :: c.id == CustomID(raw))
  }

  lemma LoadedTrimmed(customs: seq<Custom>, s: string)
    requires forall c :: c in customs ==> exists raw :: c.id == CustomID(raw)
    requires s in CustomIDs(customs)
    ensures Trim(s) == s
  {
    var i :| 0 <= i < |customs| && CustomIDs(customs)[i] == s;
    assert customs[i] in customs;
  }

  lemma BaseTrimmed(builtins: seq<RoleSpec>, customs: seq<Custom>, extras: seq<Custom>, coding: seq<string>,
                    schema: string -> Option<string>)
    requires Loaded(builtins, customs, extras)
    ensures var ids := IDs(Base(builtins, customs, extras, coding, schema));
            NoRepeat(ids) && forall s :: s in ids ==> Trim(s) == s
  {
    BaseIDs(builtins, customs, extras, coding, schema);
    forall s | s in IDs(Base(builtins, customs, extras, coding, schema)) ensures Trim(s) == s {
      if s in CustomIDs(customs) {
        LoadedTrimmed(customs, s);
      } else if s in CustomIDs(extras) {
        LoadedTrimmed(extras, s);
      }
    }
  }

  /** The ids AllSpecs returns are pairwise distinct if and only if no base role is itself spelled
      like a rung the ladder derives, whatever the agent files and blocks repeat or override. */
  lemma RosterDistinctIff(builtins: seq<RoleSpec>, customs: seq<Custom>, extras: seq<Custom>, coding: seq<string>,
                          schema: string -> Option<string>, models: seq<string>)
    requires Loaded(builtins, customs, extras)
    ensures var base, ladder := Base(builtins, customs, extras, coding, schema), Ladder(models);
            NoRepeat(IDs(base + Derived(base, ladder))) <==> NoneSpelled(ByEscalation(), IDs(base), |ladder|)
  {
    var base, ladder := Base(builtins, customs, extras, coding, schema), Ladder(models);
    BaseTrimmed(builtins, customs, extras, coding, schema);
    TrimmedApart(IDs(base));
    EscalationInjective();
    IDsConcat(base, Derived(base, ladder));
    DerivedIDs(base, ladder);
    NamesDistinctIff(ByEscalation(), IDs(base), |ladder|);
  }

  lemma PrintedHasSuffix(id: string, rung: nat)
    requires IsEscalableRole(id) && !IsEscalated(id) && rung > 0
    ensures LastSuffix(EscalatedRoleID(id, rung)).Some?
  {
    ClimberIsNamed(id);
    PrintedSplits(Trim(id), rung);
  }

  lemma OccursHasAt(id: string, i: nat)
    requires OccursAt(id, i)
    ensures id[i] == '@'
  {
    assert id[i..i + 4][0] == id[i];
  }

  lemma NoAtIsPlain(id: string)
    requires forall i :: 0 <= i < |id| ==> id[i] != '@'
    ensures LastSuffix(id).None? && BaseRoleID(id) == (id, 0)
  {
    forall i: nat ensures OccursAt(id, i) ==> id[i] == '@' {
      if OccursAt(id, i) {
        OccursHasAt(id, i);
      }
    }
  }

  /** An id NormalizeCustom accepts has no '@', so it cannot look like a rung. */
  lemma ValidIsPlain(id: string)
    requires ValidID(id)
    ensures LastSuffix(id).None?
  {
    NoAtIsPlain(id);
  }

  /** So the ids are distinct when every id that was not refused is plain. Agent files on disk always
      qualify, because a refused file is not loaded; only a block can be registered with an id
      NormalizeCustom refused. */
  lemma RosterDistinct(builtins: seq<RoleSpec>, customs: seq<Custom>, extras: seq<Custom>, coding: seq<string>,
                       schema: string -> Option<string>, models: seq<string>)
    requires Loaded(builtins, customs, extras)
    requires forall s :: s in IDs(builtins) || s in CustomIDs(customs) ==> ValidID(s)
    requires forall s :: s in CustomIDs(extras) ==> LastSuffix(s).None?
    ensures var base := Base(builtins, customs, extras, coding, schema);
            NoRepeat(IDs(base + Derived(base, Ladder(models))))
  {
    var base := Base(builtins, customs, extras, coding, schema);
    var nm, ids := ByEscalation(), IDs(base);
    RosterDistinctIff(builtins, customs, extras, coding, schema, models);
    BaseIDs(builtins, customs, extras, coding, schema);
    forall s | s in ids ensures LastSuffix(s).None? {
      if s !in CustomIDs(extras) {
        ValidIsPlain(s);
      }
    }
    forall i, j, rung: nat | 0 <= i < |ids| && 0 <= j < |ids| && nm.climbs(ids[j]) && 1 <= rung <= |Ladder(models)|
      ensures ids[i] != nm.spell(ids[j], rung)
    {
      PrintedHasSuffix(ids[j], rung);
      assert ids[i] in ids;
    }
  }

  /** A block that calls itself worker@esc1 is refused by NormalizeCustom and registered anyway,
      because its error is dropped; with any ladder the roster then has that id twice. */
  lemma BlockClashes(builtins: seq<RoleSpec>, block: Custom, coding: seq<string>, schema: string -> Option<string>,
                     models: seq<string>)
    requires Loaded(builtins, [], []) && "worker" in IDs(builtins) && |Ladder(models)| > 0
    requires block.id == "worker@esc1"
    ensures !ValidID(block.id) && Loaded(builtins, [], [block])
    ensures var base := Base(builtins, [], [block], coding, schema);
            !NoRepeat(IDs(base + Derived(base, Ladder(models))))
  {
    var base := Base(builtins, [], [block], coding, schema);
    RungRefused();
    assert block.id == CustomID(block.id);
    RosterDistinctIff(builtins, [], [block], coding, schema, models);
    BaseIDs(builtins, [], [block], coding, schema);
    assert CustomIDs([block])[0] == block.id;
    WorkerClimbs();
    SpelledLikeRung(ByEscalation(), IDs(base), |Ladder(models)|, "worker", 1);
  }

  lemma SpelledLikeRung(nm: Naming, ids: seq<string>, n: nat, id: string, rung: nat)
    requires id in ids && nm.climbs(id) && 1 <= rung <= n && nm.spell(id, rung) in ids
    ensures !NoneSpelled(nm, ids, n)
  {
    var i :| 0 <= i < |ids| && ids[i] == nm.spell(id, rung);
    var j :| 0 <= j < |ids| && ids[j] == id;
    assert ids[i] == nm.spell(ids[j], rung);
  }

  lemma LowerTrimmed(id: string)
    requires id != "" && forall i :: 0 <= i < |id| ==> !IsSpace(id[i]) && !('A' <= id[i] <= 'Z')
    ensures Trimmed(id) && ToLower(id) == id && CustomID(id) == id
  {
    assert forall i :: 0 <= i < |id| ==> ToLower(id)[i] == id[i];
    TrimIsTrimmed(id);
  }

  lemma RungRefused()
    ensures !ValidID("worker@esc1") && CustomID("worker@esc1") == "worker@esc1"
  {
    var id := "worker@esc1";
    assert id[6] == '@';
    LowerTrimmed(id);
  }

  lemma WorkerClimbs()
    ensures ByEscalation().climbs("worker") && ByEscalation().spell("worker", 1) == "worker@esc1"
  {
    NoAtIsPlain("worker");
    LowerTrimmed("worker");
    TrimIsTrimmed("worker");
    assert "worker" + SUFFIX + Itoa(1) == "worker@esc1";
  }
}
