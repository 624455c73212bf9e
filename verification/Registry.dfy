/** AllSpecs in pkg/agents/factory.go: built-in roles, overrides and custom roles from disk, block
    roles, one decoding contract for all of them, and the ladder rungs last. */
module Registry {
  import opened Text
  import opened Escalate

  /** An agent file or block; tools None is a field that was not set. */
  datatype Custom = Custom(id: string, title: string, model: string, tools: Option<bool>, maxTokens: int, over: bool)

  /** The id NormalizeCustom leaves, whether or not it goes on to refuse it. */
  function CustomID(raw: string): (id: string)
    ensures Trim(id) == id
  {
    TrimIsTrimmed(raw);
    LowerIdempotent(Trim(raw));
    TrimIsTrimmed(ToLower(Trim(raw)));
    ToLower(Trim(raw))
  }

  /** What NormalizeCustom accepts: a letter, then letters, digits, '_' or '-', 2 to 64 in all. */
  predicate ValidID(id: string) {
    && 2 <= |id| <= 64 && 'a' <= id[0] <= 'z'
    && forall i :: 0 <= i < |id| ==> 'a' <= id[i] <= 'z' || '0' <= id[i] <= '9' || id[i] == '_' || id[i] == '-'
  }

  predicate ToolsEnabled(c: Custom) { if c.tools.None? then !c.over else c.tools.value }

  /** ToRoleSpec. */
  function ToSpec(c: Custom, coding: seq<string>): RoleSpec {
    RoleSpec(c.id, c.title, c.model, if ToolsEnabled(c) then coding else [], c.maxTokens, false, "", false, [])
  }

  /** ApplyOverride: empty fields leave the base alone. */
  function Overridden(base: RoleSpec, c: Custom, coding: seq<string>): RoleSpec {
    base.(title := if Trim(c.title) != "" then Trim(c.title) else base.title,
          model := if Trim(c.model) != "" then Trim(c.model) else base.model,
          maxTokens := if c.maxTokens > 0 then c.maxTokens else base.maxTokens,
          tools := if c.tools == Some(true) then coding else if c.tools == Some(false) then [] else base.tools)
  }

  // ---- the merge -----------------------------------------------------------

  /** The last spec of an id. */
  function PlaceOf(specs: seq<RoleSpec>, id: string): (i: Option<nat>)
    ensures i.Some? ==> i.value < |specs| && specs[i.value].id == id
    ensures i.None? ==> forall j :: 0 <= j < |specs| ==> specs[j].id != id
  {
    if specs == [] then None
    else if specs[|specs| - 1].id == id then Some(|specs| - 1)
    else PlaceOf(specs[..|specs| - 1], id)
  }

  /** A role from disk overrides the spec of its id, or joins the list. */
  function MergeOne(specs: seq<RoleSpec>, c: Custom, coding: seq<string>): seq<RoleSpec> {
    var at := PlaceOf(specs, c.id);
    if at.Some? then specs[at.value := Overridden(specs[at.value], c, coding)] else specs + [ToSpec(c, coding)]
  }

  function MergeAll(specs: seq<RoleSpec>, customs: seq<Custom>, coding: seq<string>): seq<RoleSpec> {
    if customs == [] then specs
    else MergeOne(MergeAll(specs, customs[..|customs| - 1], coding), customs[|customs| - 1], coding)
  }

  /** A block role joins the list unless its id is taken. */
  function AddOne(specs: seq<RoleSpec>, c: Custom, coding: seq<string>): seq<RoleSpec> {
    if PlaceOf(specs, c.id).Some? then specs else specs + [ToSpec(c, coding)]
  }

  function AddAll(specs: seq<RoleSpec>, extras: seq<Custom>, coding: seq<string>): seq<RoleSpec> {
    if extras == [] then specs
    else AddOne(AddAll(specs, extras[..|extras| - 1], coding), extras[|extras| - 1], coding)
  }

  function Merged(builtins: seq<RoleSpec>, customs: seq<Custom>, extras: seq<Custom>,
                  coding: seq<string>): seq<RoleSpec> {
    AddAll(MergeAll(builtins, customs, coding), extras, coding)
  }

  /** The source's index map, which holds the last position of every id. */
  ghost predicate Indexed(specs: seq<RoleSpec>, index: map<string, nat>) {
    forall id :: (id in index <==> PlaceOf(specs, id).Some?) && (id in index ==> PlaceOf(specs, id) == Some(index[id]))
  }

  lemma PlaceSnoc(specs: seq<RoleSpec>, s: RoleSpec, id: string)
    ensures PlaceOf(specs + [s], id) == if s.id == id then Some(|specs|) else PlaceOf(specs, id)
  {
    assert (specs + [s])[..|specs|] == specs;
  }

  lemma {:induction false} PlaceUpdate(specs: seq<RoleSpec>, i: nat, s: RoleSpec, id: string)
    requires i < |specs| && s.id == specs[i].id
    ensures PlaceOf(specs[i := s], id) == PlaceOf(specs, id)
  {
    if i < |specs| - 1 {
      assert specs[i := s][..|specs| - 1] == specs[..|specs| - 1][i := s];
      PlaceUpdate(specs[..|specs| - 1], i, s, id);
    } else {
      assert specs[i := s][..|specs| - 1] == specs[..|specs| - 1];
    }
  }

  lemma IndexSnoc(specs: seq<RoleSpec>, index: map<string, nat>, s: RoleSpec)
    requires Indexed(specs, index)
    ensures Indexed(specs + [s], index[s.id := |specs|])
  {
    forall id ensures PlaceOf(specs + [s], id) == if s.id == id then Some(|specs|) else PlaceOf(specs, id) {
      PlaceSnoc(specs, s, id);
    }
  }

  lemma IndexUpdate(specs: seq<RoleSpec>, index: map<string, nat>, i: nat, s: RoleSpec)
    requires Indexed(specs, index) && i < |specs| && s.id == specs[i].id
    ensures Indexed(specs[i := s], index)
  {
    forall id ensures PlaceOf(specs[i := s], id) == PlaceOf(specs, id) {
      PlaceUpdate(specs, i, s, id);
    }
  }

  /** The three loops of AllSpecs over its index map. */
  method Merge(builtins: seq<RoleSpec>, customs: seq<Custom>, extras: seq<Custom>, coding: seq<string>)
    returns (out: seq<RoleSpec>)
    ensures out == Merged(builtins, customs, extras, coding)
  {
    out := builtins;
    var index: map<string, nat> := map[];
    for i := 0 to |out|
      invariant Indexed(out[..i], index)
    {
      IndexSnoc(out[..i], index, out[i]);
      assert out[..i + 1] == out[..i] + [out[i]];
      index := index[out[i].id := i];
    }
    assert out[..|out|] == out;
    for k := 0 to |customs|
      invariant Indexed(out, index) && out == MergeAll(builtins, customs[..k], coding)
    {
      var c := customs[k];
      assert customs[..k + 1][..k] == customs[..k];
      if c.id in index {
        var i := index[c.id];
        IndexUpdate(out, index, i, Overridden(out[i], c, coding));
        out := out[i := Overridden(out[i], c, coding)];
        continue;
      }
      IndexSnoc(out, index, ToSpec(c, coding));
      out := out + [ToSpec(c, coding)];
      index := index[c.id := |out| - 1];
    }
    assert customs[..|customs|] == customs;
    ghost var disk := out;
    for k := 0 to |extras|
      invariant Indexed(out, index) && out == AddAll(disk, extras[..k], coding)
    {
      var c := extras[k];
      assert extras[..k + 1][..k] == extras[..k];
      if c.id in index {
        continue;
      }
      IndexSnoc(out, index, ToSpec(c, coding));
      out := out + [ToSpec(c, coding)];
      index := index[c.id := |out| - 1];
    }
    assert extras[..|extras|] == extras;
  }

  // ---- the decoding contract -----------------------------------------------

  const JSON_TAIL_STOP: seq<string> := ["\n## ", "\n```\n\n", "\nNote:"]

  /** The schema a role's id or its generic role names; what pkg/schema knows is a parameter. */
  function SchemaOf(id: string, schema: string -> Option<string>): string {
    if schema(id).Some? then schema(id).value
    else if schema(GenericRole(id)).Some? then schema(GenericRole(id)).value
    else ""
  }

  /** NormalizeDecoding. */
  function Contracted(s: RoleSpec, schema: string -> Option<string>): (r: RoleSpec)
    ensures r.id == s.id
  {
    var id := ToLower(Trim(s.id));
    if Trim(s.id) == "" then s
    else
      var role := if s.schemaRole == "" then SchemaOf(id, schema) else s.schemaRole;
      if s.tools != [] then s.(schemaRole := role, serialTools := true, jsonOnly := false)
      else if GenericRole(id) in {"context", "memory", "describer"} then s.(jsonOnly := false, schemaRole := "")
      else if role == "" then s.(schemaRole := role)
      else s.(schemaRole := role, jsonOnly := true,
              stopSequences := if s.stopSequences == [] then JSON_TAIL_STOP else s.stopSequences)
  }

  /** The built-in roles pass through it twice, which changes nothing. */
  lemma ContractIdempotent(s: RoleSpec, schema: string -> Option<string>)
    ensures Contracted(Contracted(s, schema), schema) == Contracted(s, schema)
  {
  }

  function ContractAll(specs: seq<RoleSpec>, schema: string -> Option<string>): (r: seq<RoleSpec>)
    ensures |r| == |specs| && forall i :: 0 <= i < |r| ==> r[i] == Contracted(specs[i], schema)
  {
    if specs == [] then [] else ContractAll(specs[..|specs| - 1], schema) + [Contracted(specs[|specs| - 1], schema)]
  }

  /** The base roster: merged, every spec with its contract. */
  function Base(builtins: seq<RoleSpec>, customs: seq<Custom>, extras: seq<Custom>, coding: seq<string>,
                schema: string -> Option<string>): seq<RoleSpec>
  {
    ContractAll(Merged(builtins, customs, extras, coding), schema)
  }

  /** AllSpecs. */
  method AllSpecs(f: Factory, builtins: seq<RoleSpec>, customs: seq<Custom>, extras: seq<Custom>, coding: seq<string>,
                  schema: string -> Option<string>)
    returns (out: seq<RoleSpec>)
    ensures var base := Base(builtins, customs, extras, coding, schema); out == base + Derived(base, f.escalation)
  {
    var merged := Merge(builtins, customs, extras, coding);
    out := merged;
    for i := 0 to |merged|
      invariant |out| == |merged|
      invariant forall j :: 0 <= j < i ==> out[j] == Contracted(merged[j], schema)
      invariant forall j :: i <= j < |merged| ==> out[j] == merged[j]
    {
      out := out[i := Contracted(out[i], schema)];
    }
    assert out == ContractAll(merged, schema);
    var rungs := f.EscalatedSpecs(out);
    out := out + rungs;
  }

  // ---- which ids result ----------------------------------------------------

  function IDs(specs: seq<RoleSpec>): (r: seq<string>)
    ensures |r| == |specs| && forall i :: 0 <= i < |r| ==> r[i] == specs[i].id
  {
    if specs == [] then [] else IDs(specs[..|specs| - 1]) + [specs[|specs| - 1].id]
  }

  function CustomIDs(customs: seq<Custom>): (r: seq<string>)
    ensures |r| == |customs| && forall i :: 0 <= i < |r| ==> r[i] == customs[i].id
  {
    if customs == [] then [] else CustomIDs(customs[..|customs| - 1]) + [customs[|customs| - 1].id]
  }

  /** The ids with those of more that are new, each once, in order. */
  function Joined(ids: seq<string>, more: seq<string>): (r: seq<string>)
    ensures ids <= r
    ensures forall s :: s in r <==> s in ids || s in more
  {
    if more == [] then ids
    else
      var last := more[|more| - 1];
      var front := Joined(ids, more[..|more| - 1]);
      assert more == more[..|more| - 1] + [last];
      if last in front then front else front + [last]
  }

  ghost predicate NoRepeat(ids: seq<string>) {
    forall i, j :: 0 <= i < j < |ids| ==> ids[i] != ids[j]
  }

  lemma {:induction false} JoinedDistinct(ids: seq<string>, more: seq<string>)
    requires NoRepeat(ids)
    ensures NoRepeat(Joined(ids, more))
  {
    if more != [] {
      JoinedDistinct(ids, more[..|more| - 1]);
    }
  }

  lemma PlaceIsMember(specs: seq<RoleSpec>, id: string)
    ensures PlaceOf(specs, id).Some? <==> id in IDs(specs)
  {
    if PlaceOf(specs, id).Some? {
      assert IDs(specs)[PlaceOf(specs, id).value] == id;
    }
  }

  lemma {:induction false} MergeIDs(specs: seq<RoleSpec>, customs: seq<Custom>, coding: seq<string>)
    ensures IDs(MergeAll(specs, customs, coding)) == Joined(IDs(specs), CustomIDs(customs))
  {
    if customs != [] {
      var front, c := MergeAll(specs, customs[..|customs| - 1], coding), customs[|customs| - 1];
      MergeIDs(specs, customs[..|customs| - 1], coding);
      PlaceIsMember(front, c.id);
      assert CustomIDs(customs)[..|customs| - 1] == CustomIDs(customs[..|customs| - 1]);
      assert IDs(MergeOne(front, c, coding)) == if c.id in IDs(front) then IDs(front) else IDs(front) + [c.id];
    }
  }

  lemma {:induction false} AddIDs(specs: seq<RoleSpec>, extras: seq<Custom>, coding: seq<string>)
    ensures IDs(AddAll(specs, extras, coding)) == Joined(IDs(specs), CustomIDs(extras))
  {
    if extras != [] {
      var front, c := AddAll(specs, extras[..|extras| - 1], coding), extras[|extras| - 1];
      AddIDs(specs, extras[..|extras| - 1], coding);
      PlaceIsMember(front, c.id);
      assert CustomIDs(extras)[..|extras| - 1] == CustomIDs(extras[..|extras| - 1]);
      assert IDs(AddOne(front, c, coding)) == if c.id in IDs(front) then IDs(front) else IDs(front) + [c.id];
    }
  }

  /** The merge keeps the built-in roles in their order, adds each new id once, and so never repeats
      one, whatever the files and blocks repeat. */
  lemma BaseIDs(builtins: seq<RoleSpec>, customs: seq<Custom>, extras: seq<Custom>, coding: seq<string>,
                schema: string -> Option<string>)
    ensures var ids := IDs(Base(builtins, customs, extras, coding, schema));
            && ids == Joined(Joined(IDs(builtins), CustomIDs(customs)), CustomIDs(extras))
            && IDs(builtins) <= ids
            && (forall s :: s in ids <==> s in IDs(builtins) || s in CustomIDs(customs) || s in CustomIDs(extras))
            && (NoRepeat(IDs(builtins)) ==> NoRepeat(ids))
  {
    var disk := MergeAll(builtins, customs, coding);
    MergeIDs(builtins, customs, coding);
    AddIDs(disk, extras, coding);
    assert IDs(ContractAll(AddAll(disk, extras, coding), schema)) == IDs(AddAll(disk, extras, coding));
    if NoRepeat(IDs(builtins)) {
      JoinedDistinct(IDs(builtins), CustomIDs(customs));
      JoinedDistinct(IDs(disk), CustomIDs(extras));
    }
  }

  /** A block never changes a role that is already there. */
  lemma {:induction false} BlocksOnlyAdd(specs: seq<RoleSpec>, extras: seq<Custom>, coding: seq<string>)
    ensures specs <= AddAll(specs, extras, coding)
  {
    if extras != [] {
      BlocksOnlyAdd(specs, extras[..|extras| - 1], coding);
    }
  }

  // ---- what a merged role is -----------------------------------------------

  /** v is what the last file of this id that says anything says, and base if none does. */
  ghost predicate LastWord<T(!new)>(customs: seq<Custom>, id: string, says: Custom -> Option<T>, base: T, v: T) {
    || (v == base && forall k :: 0 <= k < |customs| && customs[k].id == id ==> says(customs[k]).None?)
    || exists k :: 0 <= k < |customs| && customs[k].id == id && says(customs[k]) == Some(v)
                   && forall j :: k < j < |customs| && customs[j].id == id ==> says(customs[j]).None?
  }

  lemma LastWordSnoc<T(!new)>(customs: seq<Custom>, c: Custom, id: string, says: Custom -> Option<T>, base: T, v: T)
    requires LastWord(customs, id, says, base, v)
    ensures LastWord(customs + [c], id, says, base, if c.id == id && says(c).Some? then says(c).value else v)
  {
    var all := customs + [c];
    assert all[|customs|] == c;
    if !(c.id == id && says(c).Some?) {
      if k :| 0 <= k < |customs| && customs[k].id == id && says(customs[k]) == Some(v)
              && forall j :: k < j < |customs| && customs[j].id == id ==> says(customs[j]).None? {
        assert all[k] == customs[k];
      }
    }
  }

  function SaysText(text: string): Option<string> { if Trim(text) == "" then None else Some(Trim(text)) }

  function SaysTokens(c: Custom): Option<int> { if c.maxTokens > 0 then Some(c.maxTokens) else None }

  function SaysTools(c: Custom, coding: seq<string>): Option<seq<string>> {
    if c.tools.None? then None else Some(if c.tools.value then coding else [])
  }

  /** m is base as the files of its id leave it: each field by the last file that sets it. */
  ghost predicate Overlaid(base: RoleSpec, customs: seq<Custom>, coding: seq<string>, m: RoleSpec) {
    && LastWord(customs, base.id, (c: Custom) => SaysText(c.title), base.title, m.title)
    && LastWord(customs, base.id, (c: Custom) => SaysText(c.model), base.model, m.model)
    && LastWord(customs, base.id, SaysTokens, base.maxTokens, m.maxTokens)
    && LastWord(customs, base.id, (c: Custom) => SaysTools(c, coding), base.tools, m.tools)
    && m == base.(title := m.title, model := m.model, maxTokens := m.maxTokens, tools := m.tools)
  }

  lemma OverlaidSnoc(base: RoleSpec, customs: seq<Custom>, c: Custom, coding: seq<string>, m: RoleSpec)
    requires Overlaid(base, customs, coding, m)
    ensures Overlaid(base, customs + [c], coding, if c.id == base.id then Overridden(m, c, coding) else m)
  {
    LastWordSnoc(customs, c, base.id, (c: Custom) => SaysText(c.title), base.title, m.title);
    LastWordSnoc(customs, c, base.id, (c: Custom) => SaysText(c.model), base.model, m.model);
    LastWordSnoc(customs, c, base.id, SaysTokens, base.maxTokens, m.maxTokens);
    LastWordSnoc(customs, c, base.id, (c: Custom) => SaysTools(c, coding), base.tools, m.tools);
  }

  /** A role that is there before the files are read ends up as they leave it, at its own place; a block
      does not touch it. */
  lemma {:induction false} RolesOverlaid(specs: seq<RoleSpec>, customs: seq<Custom>, coding: seq<string>, i: nat)
    requires i < |specs| && PlaceOf(specs, specs[i].id) == Some(i)
    ensures var all := MergeAll(specs, customs, coding);
            && i < |all| && PlaceOf(all, specs[i].id) == Some(i) && Overlaid(specs[i], customs, coding, all[i])
  {
    if customs != [] {
      var front, c := customs[..|customs| - 1], customs[|customs| - 1];
      RolesOverlaid(specs, front, coding, i);
      var before := MergeAll(specs, front, coding);
      OverlaidSnoc(specs[i], front, c, coding, before[i]);
      assert customs == front + [c];
      MergeStep(before, c, coding, i);
    }
  }

  lemma MergeStep(specs: seq<RoleSpec>, c: Custom, coding: seq<string>, i: nat)
    requires i < |specs| && PlaceOf(specs, specs[i].id) == Some(i)
    ensures var next := MergeOne(specs, c, coding);
            && i < |next| && PlaceOf(next, specs[i].id) == Some(i)
            && next[i] == if c.id == specs[i].id then Overridden(specs[i], c, coding) else specs[i]
  {
    var at := PlaceOf(specs, c.id);
    if at.Some? {
      PlaceUpdate(specs, at.value, Overridden(specs[at.value], c, coding), specs[i].id);
    } else {
      PlaceSnoc(specs, ToSpec(c, coding), specs[i].id);
    }
  }

  /** A role that was not there takes everything from the file or block that brings it: with tools unless
      it turns them off, or, for an override of a built-in, only if it turns them on. */
  lemma NewRole(specs: seq<RoleSpec>, c: Custom, coding: seq<string>)
    requires PlaceOf(specs, c.id).None?
    ensures MergeOne(specs, c, coding) == AddOne(specs, c, coding)
    ensures AddOne(specs, c, coding)
         == specs + [RoleSpec(c.id, c.title, c.model,
                              if c.tools == Some(true) || (c.tools == None && !c.over) then coding else [],
                              c.maxTokens, false, "", false, [])]
  {
  }

  // ---- what the contract is ------------------------------------------------

  /** base is the generic role g or a specialisation of it, such as go-worker. */
  ghost predicate Specialises(base: string, g: string) { base == g || exists p: string :: base == p + "-" + g }

  lemma SpecialisesIff(base: string, g: string)
    ensures base == g || HasSuffix(base, "-" + g) <==> Specialises(base, g)
  {
    SuffixIff(base, "-" + g);
    if p: string :| base == p + "-" + g {
      assert base == p + ("-" + g);
    }
    if p: string :| base == p + ("-" + g) {
      assert base == p + "-" + g;
    }
  }

  /** The first name of a list that base specialises, or base itself. */
  ghost predicate FirstOf(base: string, names: seq<string>, r: string) {
    || (r == base && forall i :: 0 <= i < |names| ==> !Specialises(base, names[i]))
    || exists i :: 0 <= i < |names| && r == names[i] && Specialises(base, names[i])
                   && forall j :: 0 <= j < i ==> !Specialises(base, names[j])
  }

  lemma {:induction false} FirstGenericIs(base: string, names: seq<string>)
    ensures FirstOf(base, names, FirstGeneric(base, names))
  {
    if names != [] {
      SpecialisesIff(base, names[0]);
      if Specialises(base, names[0]) {
        assert names[0] == FirstGeneric(base, names);
      } else {
        FirstGenericIs(base, names[1..]);
        FirstOfNext(base, names, FirstGeneric(base, names));
      }
    }
  }

  lemma FirstOfNext(base: string, names: seq<string>, r: string)
    requires names != [] && !Specialises(base, names[0]) && FirstOf(base, names[1..], r)
    ensures FirstOf(base, names, r)
  {
    if i :| 0 <= i < |names| - 1 && r == names[1..][i] && Specialises(base, names[1..][i])
            && forall j :: 0 <= j < i ==> !Specialises(base, names[1..][j]) {
      assert names[i + 1] == r;
      forall j | 0 <= j < i + 1 ensures !Specialises(base, names[j]) {
        if j > 0 {
          assert names[j] == names[1..][j - 1];
        }
      }
    } else {
      forall i | 0 <= i < |names| ensures !Specialises(base, names[i]) {
        if i > 0 {
          assert names[i] == names[1..][i - 1];
        }
      }
    }
  }

  /** The generic role of a role is that of its base, rungs included. */
  lemma GenericRoleIs(id: string)
    ensures FirstOf(BaseRoleID(id).0,
                    ["worker", "tester", "reviewer", "corrector", "explorer", "planner", "splitter", "architect",
                     "editor", "describer", "manager", "triage"], GenericRole(id))
  {
    FirstGenericIs(BaseRoleID(id).0, GENERICS);
  }

  /** The schema a contract names: the role's own if it has one, else what its id stands for, else what
      its generic role stands for. */
  ghost predicate NamesSchema(s: RoleSpec, schema: string -> Option<string>, role: string) {
    var id := ToLower(Trim(s.id));
    if s.schemaRole != "" then role == s.schemaRole
    else if schema(id).Some? then role == schema(id).value
    else if schema(GenericRole(id)).Some? then role == schema(GenericRole(id)).value
    else role == ""
  }

  predicate FreeText(s: RoleSpec) {
    var g := GenericRole(ToLower(Trim(s.id)));
    g == "context" || g == "memory" || g == "describer"
  }

  /** The decoding contract: a role with tools answers one call a turn and is never JSON-only; a role
      without them is free text, or JSON with its own stop sequences or the three usual ones once a schema
      is known; nothing else of it changes, and an id of blanks is left alone. */
  lemma ContractIs(s: RoleSpec, schema: string -> Option<string>)
    ensures var r := Contracted(s, schema);
            && r == s.(jsonOnly := r.jsonOnly, schemaRole := r.schemaRole, serialTools := r.serialTools,
                       stopSequences := r.stopSequences)
            && (Trim(s.id) == "" ==> r == s)
            && (Trim(s.id) != "" && s.tools != [] ==>
                  && r.serialTools && !r.jsonOnly && NamesSchema(s, schema, r.schemaRole)
                  && r.stopSequences == s.stopSequences)
            && (s.tools == [] ==> r.serialTools == s.serialTools)
            && (Trim(s.id) != "" && s.tools == [] && FreeText(s) ==>
                  !r.jsonOnly && r.schemaRole == "" && r.stopSequences == s.stopSequences)
            && (Trim(s.id) != "" && s.tools == [] && !FreeText(s) ==>
                  && NamesSchema(s, schema, r.schemaRole)
                  && (r.jsonOnly <==> s.jsonOnly || r.schemaRole != "")
                  && r.stopSequences == if r.schemaRole != "" && s.stopSequences == []
                                        then ["\n## ", "\n```\n\n", "\nNote:"] else s.stopSequences)
  {
  }
}
