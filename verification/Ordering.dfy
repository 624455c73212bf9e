/** The order of a surface, and that nothing a file offers is missing from it. */
module Ordering {
  import opened Text
  import opened Domains
  import opened Whitelist
  import opened YamlEdit
  import opened Disk
  import opened Surface
  import Agreement

  // ---- the order of strings ------------------------------------------------

  /** a and b agree on their first n characters. */
  predicate SameUpTo(a: string, b: string, n: nat) { n <= |a| && n <= |b| && a[..n] == b[..n] }

  /** a comes before b: a proper prefix, or smaller at the first difference. */
  ghost predicate ComesBefore(a: string, b: string) {
    exists n: nat :: SameUpTo(a, b, n) && n < |b| && (n == |a| || a[n] < b[n])
  }

  lemma {:induction false} LessIff(a: string, b: string)
    ensures Less(a, b) <==> ComesBefore(a, b)
  {
    if a != [] && b != [] && a[0] == b[0] {
      LessIff(a[1..], b[1..]);
      if ComesBefore(a[1..], b[1..]) {
        var n: nat :| SameUpTo(a[1..], b[1..], n) && n < |b| - 1 && (n == |a| - 1 || a[1..][n] < b[1..][n]);
        assert a[..n + 1] == [a[0]] + a[1..][..n] && b[..n + 1] == [b[0]] + b[1..][..n];
        assert SameUpTo(a, b, n + 1);
      }
      if ComesBefore(a, b) {
        var n: nat :| SameUpTo(a, b, n) && n < |b| && (n == |a| || a[n] < b[n]);
        assert a[1..][..n - 1] == a[..n][1..] && b[1..][..n - 1] == b[..n][1..];
        assert SameUpTo(a[1..], b[1..], n - 1);
      }
    } else if a != [] && b != [] {
      DiffersAtOnce(a, b);
    } else if a == [] && b != [] {
      assert SameUpTo(a, b, 0);
    }
  }

  lemma HeadsAgree(a: string, b: string, n: nat)
    requires SameUpTo(a, b, n) && n > 0
    ensures a[0] == b[0]
  {
    assert a[..n][0] == b[..n][0];
  }

  lemma DiffersAtOnce(a: string, b: string)
    requires a != [] && b != [] && a[0] != b[0]
    ensures ComesBefore(a, b) <==> a[0] < b[0]
  {
    if ComesBefore(a, b) {
      var n: nat :| SameUpTo(a, b, n) && n < |b| && (n == |a| || a[n] < b[n]);
      if n > 0 {
        HeadsAgree(a, b, n);
      }
    }
    assert SameUpTo(a, b, 0);
  }

  lemma NotLessTransitive(a: string, b: string, c: string)
    requires !Less(b, a) && !Less(c, b)
    ensures !Less(c, a)
  {
    LessTotal(a, b);
    LessTotal(b, c);
    LessTotal(a, c);
    if Less(a, b) && Less(b, c) {
      LessTransitive(a, b, c);
    }
  }

  // ---- the order of knobs --------------------------------------------------

  /** No knob comes after one with a larger id. */
  ghost predicate Ascends(knobs: seq<Knob>) {
    forall i, j :: 0 <= i < j < |knobs| ==> !Less(knobs[j].id, knobs[i].id)
  }

  lemma {:induction false} InsertAscends(k: Knob, s: seq<Knob>)
    requires Ascends(s)
    ensures Ascends(Insert(k, s))
  {
    if s != [] && Less(s[0].id, k.id) {
      var rest := Insert(k, s[1..]);
      InsertAscends(k, s[1..]);
      Agreement.InsertMembers(k, s[1..]);
      LessTotal(s[0].id, k.id);
      forall j | 0 <= j < |rest| ensures !Less(rest[j].id, s[0].id) {
        assert rest[j] in multiset(rest);
        assert rest[j] == k || rest[j] in s[1..];
      }
    } else {
      LeastFirst(k, s);
    }
  }

  lemma LeastFirst(k: Knob, s: seq<Knob>)
    requires Ascends(s) && (s == [] || !Less(s[0].id, k.id))
    ensures Ascends([k] + s)
  {
    var all := [k] + s;
    forall i, j | 0 <= i < j < |all| ensures !Less(all[j].id, all[i].id) {
      if i == 0 {
        assert all[j] == s[j - 1];
        if j > 1 {
          NotLessTransitive(k.id, s[0].id, s[j - 1].id);
        }
      } else {
        assert all[i] == s[i - 1] && all[j] == s[j - 1];
      }
    }
  }

  lemma {:induction false} SortAscends(s: seq<Knob>)
    ensures Ascends(SortByID(s))
  {
    if s != [] {
      SortAscends(s[1..]);
      InsertAscends(s[0], SortByID(s[1..]));
    }
  }

  /** The knobs of one id, in the order they stand. */
  function OfID(s: seq<Knob>, id: string): seq<Knob> {
    if s == [] then [] else (if s[0].id == id then [s[0]] else []) + OfID(s[1..], id)
  }

  lemma {:induction false} InsertStable(k: Knob, s: seq<Knob>, id: string)
    ensures OfID(Insert(k, s), id) == (if k.id == id then [k] else []) + OfID(s, id)
  {
    if s != [] && Less(s[0].id, k.id) {
      InsertStable(k, s[1..], id);
      LessTotal(s[0].id, k.id);
      assert Insert(k, s)[1..] == Insert(k, s[1..]);
    } else {
      assert ([k] + s)[1..] == s;
    }
  }

  lemma {:induction false} SortStable(s: seq<Knob>, id: string)
    ensures OfID(SortByID(s), id) == OfID(s, id)
  {
    if s != [] {
      SortStable(s[1..], id);
      InsertStable(s[0], SortByID(s[1..]), id);
    }
  }

  lemma {:induction false} OfIDPrefix(s: seq<Knob>, n: nat, id: string)
    requires n <= |s|
    ensures OfID(s[..n], id) <= OfID(s, id)
  {
    if n > 0 {
      OfIDPrefix(s[1..], n - 1, id);
      assert s[..n][1..] == s[1..][..n - 1];
    }
  }

  /** What found holds beyond kept comes no earlier than anything kept. */
  ghost predicate LeavesOnlyLater(kept: seq<Knob>, found: seq<Knob>) {
    exists rest: seq<Knob> :: LeftOut(kept, rest, found)
  }

  ghost predicate LeftOut(kept: seq<Knob>, rest: seq<Knob>, found: seq<Knob>) {
    && multiset(kept) + multiset(rest) == multiset(found)
    && (forall k: Knob, r: Knob :: k in kept && r in rest ==> !Less(r.id, k.id))
  }

  lemma CutLeavesLater(sorted: seq<Knob>, n: nat)
    requires Ascends(sorted) && n <= |sorted|
    ensures Ascends(sorted[..n]) && LeavesOnlyLater(sorted[..n], sorted)
  {
    var kept, rest := sorted[..n], sorted[n..];
    assert sorted == kept + rest;
    forall k, r | k in kept && r in rest ensures !Less(r.id, k.id) {
      var i :| 0 <= i < n && sorted[i] == k;
      var j :| 0 <= j < |rest| && rest[j] == r;
      assert sorted[n + j] == r;
    }
    assert LeftOut(kept, rest, sorted);
  }

  lemma CapCuts(s: seq<Knob>)
    ensures |Cap(s)| == (if |s| <= 512 then |s| else 512) && Cap(s) == s[..|Cap(s)|]
  {
  }

  lemma CapIsOrdered(found: seq<Knob>, id: string)
    ensures var knobs := Cap(SortByID(found));
            && Ascends(knobs)
            && OfID(knobs, id) <= OfID(found, id) && (|found| <= 512 ==> OfID(knobs, id) == OfID(found, id))
            && |knobs| == (if |found| <= 512 then |found| else 512)
            && LeavesOnlyLater(knobs, found)
  {
    var sorted := SortByID(found);
    SortAscends(found);
    SortStable(found, id);
    Agreement.SortMembers(found);
    CapCuts(sorted);
    OfIDPrefix(sorted, |Cap(sorted)|, id);
    CutLeavesLater(sorted, |Cap(sorted)|);
    var rest: seq<Knob> :| LeftOut(Cap(sorted), rest, sorted);
    assert LeftOut(Cap(sorted), rest, found);
  }

  /** A surface ascends by id; knobs that share an id stand in the order in which they were found; it
      holds everything found up to its cap of 512; and what the cap leaves out comes no earlier than
      anything it keeps. */
  lemma ReflectIsOrdered(disk: Files, layout: Layout, id: string)
    ensures var knobs, found := Reflect(disk, layout), Found(disk, layout);
            && Ascends(knobs)
            && OfID(knobs, id) <= OfID(found, id) && (|found| <= 512 ==> OfID(knobs, id) == OfID(found, id))
            && |knobs| == (if |found| <= 512 then |found| else 512)
            && LeavesOnlyLater(knobs, found)
  {
    CapIsOrdered(Found(disk, layout), id);
  }

  // ---- nothing is missing --------------------------------------------------

  /** The owner of an agent file's knobs: its id field in lower case, or its file name when that is
      missing or blank. */
  ghost predicate OwnedBy(spec: seq<Entry>, stem: string, owner: string) {
    var named := ScalarString(spec, "id");
    if named.Some? && Trim(named.value) != "" then owner == ToLower(Trim(named.value)) else owner == ToLower(stem)
  }

  /** k is what one agent file that parses says about one field of the list. */
  ghost predicate FromFile(disk: Files, af: AgentFile, fields: seq<Field>, k: Knob) {
    && Load(disk, af.path).Some?
    && var spec := Target(Load(disk, af.path).value, true);
       && OwnedBy(spec, af.stem, k.owner) && k.id == "agent:" + k.owner + "." + k.field
       && k.source == Agent && k.file == af.path && k.inFile
       && Field(k.field, k.domain) in fields
       && ScalarString(spec, k.field).Some? && k.value == k.domain.Normalize(ScalarString(spec, k.field).value)
  }

  /** k is what the config file says about one key of the whitelist, or else the built-in default. */
  ghost predicate FromConfig(disk: Files, layout: Layout, fields: seq<Field>, k: Knob) {
    && Load(disk, layout.config).Some?
    && k.id == "config:" + k.field && k.source == Config && k.owner == "" && k.file == layout.config
    && (exists f :: f in fields && IsWhitelisted(f.key) && k.field == f.key
                    && k.domain == ScaleDomain(f.key, f.domain, layout.window))
    && var raw := ScalarString(Load(disk, layout.config).value, k.field);
       && k.inFile == raw.Some? && (raw.None? ==> k.field in layout.defaults)
       && k.value == k.domain.Normalize(if raw.Some? then raw.value else layout.defaults[k.field])
  }

  lemma {:induction false} FieldKnobsIff(spec: seq<Entry>, path: Path, id: string, fields: seq<Field>, k: Knob)
    ensures k in FieldKnobs(spec, path, id, fields) <==>
            && k.owner == id && k.id == "agent:" + id + "." + k.field && k.source == Agent && k.file == path && k.inFile
            && Field(k.field, k.domain) in fields
            && ScalarString(spec, k.field).Some? && k.value == k.domain.Normalize(ScalarString(spec, k.field).value)
  {
    if fields != [] {
      FieldKnobsIff(spec, path, id, fields[1..], k);
      assert Field(k.field, k.domain) in fields <==>
             fields[0] == Field(k.field, k.domain) || Field(k.field, k.domain) in fields[1..];
    }
  }

  lemma FileKnobsIff(disk: Files, af: AgentFile, k: Knob)
    ensures k in FileKnobs(disk, af) <==> FromFile(disk, af, AgentFields(), k)
  {
    if Load(disk, af.path).Some? {
      var spec := Target(Load(disk, af.path).value, true);
      FieldKnobsIff(spec, af.path, AgentID(spec, af.stem), AgentFields(), k);
    }
  }

  lemma {:induction false} AgentKnobsIff(disk: Files, files: seq<AgentFile>, k: Knob)
    ensures k in AgentKnobs(disk, files) <==> exists af :: af in files && k in FileKnobs(disk, af)
  {
    if files != [] {
      AgentKnobsIff(disk, files[1..], k);
      assert forall af :: af in files <==> af == files[0] || af in files[1..];
    }
  }

  lemma {:induction false} KeyKnobsIff(root: seq<Entry>, layout: Layout, fields: seq<Field>, k: Knob)
    ensures k in KeyKnobs(root, layout, fields) <==> exists f :: f in fields && k in KeyKnob(root, layout, f)
  {
    if fields != [] {
      KeyKnobsIff(root, layout, fields[1..], k);
      assert forall f :: f in fields <==> f == fields[0] || f in fields[1..];
    }
  }

  lemma ConfigKnobsIff(disk: Files, layout: Layout, fields: seq<Field>, k: Knob)
    requires Load(disk, layout.config).Some?
    ensures k in KeyKnobs(Load(disk, layout.config).value, layout, fields) <==> FromConfig(disk, layout, fields, k)
  {
    var root := Load(disk, layout.config).value;
    KeyKnobsIff(root, layout, fields, k);
    if FromConfig(disk, layout, fields, k) {
      var f :| f in fields && IsWhitelisted(f.key) && k.field == f.key
               && k.domain == ScaleDomain(f.key, f.domain, layout.window);
      assert KeyKnob(root, layout, f) == [k];
    }
  }

  /** Reflect looks at everything and at nothing else: the first 64 agent files in directory order,
      unless agents are left out, and the config file, unless it is. */
  lemma FoundIff(disk: Files, layout: Layout, k: Knob)
    ensures k in Found(disk, layout) <==>
            || (!layout.noAgents && exists i: nat :: i < |layout.agents| && i < 64
                                                     && FromFile(disk, layout.agents[i], AgentFields(), k))
            || (!layout.noConfig && FromConfig(disk, layout, ConfigFields(), k))
  {
    var files := FirstAgents(layout);
    AgentKnobsIff(disk, files, k);
    FirstAgentsIff(disk, layout, k);
    if Load(disk, layout.config).Some? {
      ConfigKnobsIff(disk, layout, ConfigFields(), k);
    }
  }

  lemma FirstAgentsIff(disk: Files, layout: Layout, k: Knob)
    ensures (exists af :: af in FirstAgents(layout) && k in FileKnobs(disk, af)) <==>
            (!layout.noAgents && exists i: nat :: i < |layout.agents| && i < 64
                                                  && FromFile(disk, layout.agents[i], AgentFields(), k))
  {
    var files := FirstAgents(layout);
    forall af | af in files ensures k in FileKnobs(disk, af) <==> FromFile(disk, af, AgentFields(), k) {
      FileKnobsIff(disk, af, k);
    }
    forall i: nat | i < |layout.agents| && i < 64
      ensures !layout.noAgents ==> layout.agents[i] in files
    {
      assert !layout.noAgents ==> files[i] == layout.agents[i];
    }
    if af :| af in files && k in FileKnobs(disk, af) {
      var i :| 0 <= i < |files| && files[i] == af;
      assert layout.agents[i] == af;
    }
  }

  // ---- in the order of the files -------------------------------------------

  /** k comes from the agent file at position n, or, past the last of them, from the config file. */
  ghost predicate FromPlace(layout: Layout, n: nat, k: Knob) {
    if n < |layout.agents| then k.source == Agent && k.file == layout.agents[n].path
    else n == |layout.agents| && k.source == Config && k.file == layout.config
  }

  ghost predicate NoEarlier(layout: Layout, n: nat, k: Knob) { exists m: nat :: n <= m && FromPlace(layout, m, k) }

  ghost predicate MayFollow(layout: Layout, k: Knob, l: Knob) {
    exists n: nat :: FromPlace(layout, n, k) && NoEarlier(layout, n, l)
  }

  ghost predicate FileByFile(layout: Layout, knobs: seq<Knob>) {
    forall i, j :: 0 <= i < j < |knobs| ==> MayFollow(layout, knobs[i], knobs[j])
  }

  /** knobs stand file by file, none of them before place n. */
  ghost predicate Settled(layout: Layout, n: nat, knobs: seq<Knob>) {
    FileByFile(layout, knobs) && forall k :: k in knobs ==> NoEarlier(layout, n, k)
  }

  lemma JoinInOrder(layout: Layout, n: nat, a: seq<Knob>, b: seq<Knob>)
    requires forall k :: k in a ==> FromPlace(layout, n, k)
    requires FileByFile(layout, b) && forall k :: k in b ==> NoEarlier(layout, n, k)
    ensures Settled(layout, n, a + b)
  {
    var all := a + b;
    forall i, j | 0 <= i < j < |all|
      ensures MayFollow(layout, all[i], all[j])
    {
      if i >= |a| {
        assert all[i] == b[i - |a|] && all[j] == b[j - |a|];
      } else {
        assert all[i] in a && FromPlace(layout, n, all[i]);
        assert all[j] in a || all[j] in b;
        assert NoEarlier(layout, n, all[j]);
      }
    }
  }

  lemma FromItsFile(disk: Files, layout: Layout, i: nat)
    requires i < |layout.agents|
    ensures forall k :: k in FileKnobs(disk, layout.agents[i]) ==> FromPlace(layout, i, k)
  {
    forall k | k in FileKnobs(disk, layout.agents[i]) ensures FromPlace(layout, i, k) {
      FileKnobsIff(disk, layout.agents[i], k);
    }
  }

  lemma Later(layout: Layout, n: nat, m: nat, knobs: seq<Knob>)
    requires n <= m && forall k :: k in knobs ==> NoEarlier(layout, m, k)
    ensures forall k :: k in knobs ==> NoEarlier(layout, n, k)
  {
    forall k | k in knobs ensures NoEarlier(layout, n, k) {
      var p: nat :| m <= p && FromPlace(layout, p, k);
      assert n <= p;
    }
  }

  lemma AgentKnobsStep(disk: Files, files: seq<AgentFile>, i: nat, tail: seq<Knob>)
    requires i < |files|
    ensures AgentKnobs(disk, files[i..]) + tail
         == FileKnobs(disk, files[i]) + (AgentKnobs(disk, files[i + 1..]) + tail)
  {
    var rest := files[i..];
    assert rest[0] == files[i] && rest[1..] == files[i + 1..];
    Append(FileKnobs(disk, rest[0]), AgentKnobs(disk, rest[1..]), tail);
  }

  lemma OneFileMore(disk: Files, layout: Layout, i: nat, rest: seq<Knob>)
    requires i < |layout.agents| && Settled(layout, i + 1, rest)
    ensures Settled(layout, i, FileKnobs(disk, layout.agents[i]) + rest)
  {
    FromItsFile(disk, layout, i);
    Later(layout, i, i + 1, rest);
    JoinInOrder(layout, i, FileKnobs(disk, layout.agents[i]), rest);
  }

  lemma {:induction false} AgentsInOrder(disk: Files, layout: Layout, files: seq<AgentFile>, i: nat, tail: seq<Knob>)
    requires files <= layout.agents && i <= |files| && Settled(layout, |layout.agents|, tail)
    ensures Settled(layout, i, AgentKnobs(disk, files[i..]) + tail)
    decreases |files| - i
  {
    if i == |files| {
      assert files[i..] == [];
      assert AgentKnobs(disk, files[i..]) + tail == tail;
      Later(layout, i, |layout.agents|, tail);
    } else {
      AgentsInOrder(disk, layout, files, i + 1, tail);
      assert files[i] == layout.agents[i];
      AgentKnobsStep(disk, files, i, tail);
      OneFileMore(disk, layout, i, AgentKnobs(disk, files[i + 1..]) + tail);
    }
  }

  lemma SamePlace(layout: Layout, knobs: seq<Knob>)
    requires forall k :: k in knobs ==> FromPlace(layout, |layout.agents|, k)
    ensures Settled(layout, |layout.agents|, knobs)
  {
    JoinInOrder(layout, |layout.agents|, knobs, []);
    assert knobs + [] == knobs;
  }

  lemma FromTheConfig(disk: Files, layout: Layout, fields: seq<Field>)
    requires Load(disk, layout.config).Some?
    ensures var knobs := KeyKnobs(Load(disk, layout.config).value, layout, fields);
            forall k :: k in knobs ==> FromPlace(layout, |layout.agents|, k)
  {
    var knobs := KeyKnobs(Load(disk, layout.config).value, layout, fields);
    forall k | k in knobs ensures FromPlace(layout, |layout.agents|, k) {
      ConfigKnobsIff(disk, layout, fields, k);
    }
  }

  lemma ConfigInPlace(disk: Files, layout: Layout)
    ensures var tail := if layout.noConfig then [] else ConfigKnobs(disk, layout);
            Settled(layout, |layout.agents|, tail)
  {
    if Load(disk, layout.config).Some? {
      FromTheConfig(disk, layout, ConfigFields());
    }
    SamePlace(layout, if layout.noConfig then [] else ConfigKnobs(disk, layout));
  }

  /** What is found stands in the order of the files: agent files as listed, the config last. */
  lemma FoundInOrder(disk: Files, layout: Layout)
    ensures FileByFile(layout, Found(disk, layout))
  {
    var files := FirstAgents(layout);
    ConfigInPlace(disk, layout);
    AgentsInOrder(disk, layout, files, 0, if layout.noConfig then [] else ConfigKnobs(disk, layout));
    assert files[0..] == files;
  }
}
