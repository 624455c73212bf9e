/** The surface as the object the loop holds: reflected once, then moved knob by knob. */
module LiveSurface {
  import opened Text
  import opened Domains
  import opened Whitelist
  import opened YamlEdit
  import opened Disk
  import opened Surface
  import Membership
  import Ordering

  // ---- sorted paths --------------------------------------------------------

  predicate PathLess(a: Path, b: Path) {
    a.Project? && b.Project? && Less(a.name, b.name)
  }

  function InsertPath(p: Path, sorted: seq<Path>): seq<Path> {
    if sorted == [] || !PathLess(sorted[0], p) then [p] + sorted
    else [sorted[0]] + InsertPath(p, sorted[1..])
  }

  /** sort.Strings. */
  function SortPaths(paths: seq<Path>): seq<Path> {
    if paths == [] then [] else InsertPath(paths[0], SortPaths(paths[1..]))
  }

  ghost predicate Ascending(paths: seq<Path>) {
    forall i, j :: 0 <= i < j < |paths| ==> PathLess(paths[i], paths[j])
  }

  ghost predicate Distinct(paths: seq<Path>) {
    forall i, j :: 0 <= i < j < |paths| ==> paths[i] != paths[j]
  }

  lemma {:induction false} InsertPathSorts(p: Path, sorted: seq<Path>)
    requires p.Project? && Ascending(sorted) && p !in sorted && forall q :: q in sorted ==> q.Project?
    ensures Ascending(InsertPath(p, sorted))
    ensures multiset(InsertPath(p, sorted)) == multiset(sorted) + multiset{p}
  {
    if sorted != [] {
      var q := sorted[0];
      LessTotal(p.name, q.name);
      assert sorted == [q] + sorted[1..];
      if PathLess(q, p) {
        InsertPathSorts(p, sorted[1..]);
        AheadOfInsert(q, p, sorted[1..]);
      } else {
        forall j | 0 <= j < |sorted| ensures PathLess(p, sorted[j]) {
          if j > 0 {
            LessTransitive(p.name, q.name, sorted[j].name);
          }
        }
      }
    }
  }

  lemma AheadOfInsert(q: Path, p: Path, rest: seq<Path>)
    requires PathLess(q, p) && forall r :: r in rest ==> PathLess(q, r)
    requires multiset(InsertPath(p, rest)) == multiset(rest) + multiset{p}
    ensures forall j :: 0 <= j < |InsertPath(p, rest)| ==> PathLess(q, InsertPath(p, rest)[j])
  {
    forall j | 0 <= j < |InsertPath(p, rest)| ensures PathLess(q, InsertPath(p, rest)[j]) {
      assert InsertPath(p, rest)[j] in multiset(InsertPath(p, rest));
    }
  }

  /** Sorting distinct paths yields a strictly ascending permutation. */
  lemma {:induction false} SortPathsSorts(paths: seq<Path>)
    requires Distinct(paths) && forall p :: p in paths ==> p.Project?
    ensures Ascending(SortPaths(paths)) && multiset(SortPaths(paths)) == multiset(paths)
  {
    if paths != [] {
      assert paths == [paths[0]] + paths[1..];
      SortPathsSorts(paths[1..]);
      SameMembers(SortPaths(paths[1..]), paths[1..]);
      InsertPathSorts(paths[0], SortPaths(paths[1..]));
    }
  }

  lemma SameMembers(a: seq<Path>, b: seq<Path>)
    requires multiset(a) == multiset(b)
    ensures forall p :: p in a <==> p in b
  {
    forall p ensures p in a <==> p in b {
      assert p in a <==> p in multiset(a);
      assert p in b <==> p in multiset(b);
    }
  }

  // ---- the object ----------------------------------------------------------

  lemma TakeSnoc<T>(s: seq<T>, n: nat)
    requires 0 < n <= |s|
    ensures s[..n] == s[..n - 1] + [s[n - 1]]
  {
  }

  lemma {:induction false} FieldKnobsSnoc(spec: seq<Entry>, path: Path, id: string, fields: seq<Field>, f: Field)
    ensures FieldKnobs(spec, path, id, fields + [f])
         == FieldKnobs(spec, path, id, fields) + FieldKnob(spec, path, id, f)
  {
    if fields == [] {
      assert fields + [f] == [f];
      assert FieldKnobs(spec, path, id, [f]) == FieldKnob(spec, path, id, f) + FieldKnobs(spec, path, id, []);
    } else {
      FieldKnobsSnoc(spec, path, id, fields[1..], f);
      assert (fields + [f])[1..] == fields[1..] + [f];
      Append(FieldKnob(spec, path, id, fields[0]), FieldKnobs(spec, path, id, fields[1..]),
             FieldKnob(spec, path, id, f));
    }
  }

  lemma {:induction false} KeyKnobsSnoc(root: seq<Entry>, layout: Layout, fields: seq<Field>, f: Field)
    ensures KeyKnobs(root, layout, fields + [f]) == KeyKnobs(root, layout, fields) + KeyKnob(root, layout, f)
  {
    if fields == [] {
      assert fields + [f] == [f];
      assert KeyKnobs(root, layout, [f]) == KeyKnob(root, layout, f) + KeyKnobs(root, layout, []);
    } else {
      KeyKnobsSnoc(root, layout, fields[1..], f);
      assert (fields + [f])[1..] == fields[1..] + [f];
      Append(KeyKnob(root, layout, fields[0]), KeyKnobs(root, layout, fields[1..]), KeyKnob(root, layout, f));
    }
  }

  lemma {:induction false} AgentKnobsSnoc(disk: Files, files: seq<AgentFile>, af: AgentFile)
    ensures AgentKnobs(disk, files + [af]) == AgentKnobs(disk, files) + FileKnobs(disk, af)
  {
    if files == [] {
      assert files + [af] == [af];
      assert AgentKnobs(disk, [af]) == FileKnobs(disk, af) + AgentKnobs(disk, []);
    } else {
      AgentKnobsSnoc(disk, files[1..], af);
      assert (files + [af])[1..] == files[1..] + [af];
      Append(FileKnobs(disk, files[0]), AgentKnobs(disk, files[1..]), FileKnobs(disk, af));
    }
  }

  /** FieldKnobs of the first n. */
  ghost function FirstFields(spec: seq<Entry>, path: Path, id: string, fields: seq<Field>, n: nat): seq<Knob>
    requires n <= |fields|
  {
    if n == 0 then [] else FirstFields(spec, path, id, fields, n - 1) + FieldKnob(spec, path, id, fields[n - 1])
  }

  lemma {:induction false} FirstFieldsAll(spec: seq<Entry>, path: Path, id: string, fields: seq<Field>, n: nat)
    requires n <= |fields|
    ensures FirstFields(spec, path, id, fields, n) == FieldKnobs(spec, path, id, fields[..n])
  {
    if n > 0 {
      FirstFieldsAll(spec, path, id, fields, n - 1);
      FieldKnobsSnoc(spec, path, id, fields[..n - 1], fields[n - 1]);
      TakeSnoc(fields, n);
    }
  }

  lemma FirstFieldsWhole(spec: seq<Entry>, path: Path, id: string, fields: seq<Field>)
    ensures FirstFields(spec, path, id, fields, |fields|) == FieldKnobs(spec, path, id, fields)
  {
    FirstFieldsAll(spec, path, id, fields, |fields|);
    assert fields[..|fields|] == fields;
  }

  /** KeyKnobs of the first n. */
  ghost function FirstKeys(root: seq<Entry>, layout: Layout, fields: seq<Field>, n: nat): seq<Knob>
    requires n <= |fields|
  {
    if n == 0 then [] else FirstKeys(root, layout, fields, n - 1) + KeyKnob(root, layout, fields[n - 1])
  }

  lemma {:induction false} FirstKeysAll(root: seq<Entry>, layout: Layout, fields: seq<Field>, n: nat)
    requires n <= |fields|
    ensures FirstKeys(root, layout, fields, n) == KeyKnobs(root, layout, fields[..n])
  {
    if n > 0 {
      FirstKeysAll(root, layout, fields, n - 1);
      KeyKnobsSnoc(root, layout, fields[..n - 1], fields[n - 1]);
      TakeSnoc(fields, n);
    }
  }

  lemma FirstKeysWhole(root: seq<Entry>, layout: Layout, fields: seq<Field>)
    ensures FirstKeys(root, layout, fields, |fields|) == KeyKnobs(root, layout, fields)
  {
    FirstKeysAll(root, layout, fields, |fields|);
    assert fields[..|fields|] == fields;
  }

  /** AgentKnobs of the first n. */
  ghost function FirstFiles(disk: Files, files: seq<AgentFile>, n: nat): seq<Knob>
    requires n <= |files|
  {
    if n == 0 then [] else FirstFiles(disk, files, n - 1) + FileKnobs(disk, files[n - 1])
  }

  lemma {:induction false} FirstFilesAll(disk: Files, files: seq<AgentFile>, n: nat)
    requires n <= |files|
    ensures FirstFiles(disk, files, n) == AgentKnobs(disk, files[..n])
  {
    if n > 0 {
      FirstFilesAll(disk, files, n - 1);
      AgentKnobsSnoc(disk, files[..n - 1], files[n - 1]);
      TakeSnoc(files, n);
    }
  }

  lemma FirstFilesWhole(disk: Files, files: seq<AgentFile>)
    ensures FirstFiles(disk, files, |files|) == AgentKnobs(disk, files)
  {
    FirstFilesAll(disk, files, |files|);
    assert files[..|files|] == files;
  }

  /** One agent field; one that is absent or not a scalar is no knob. */
  method ReadField(spec: seq<Entry>, path: Path, id: string, f: Field) returns (k: Option<Knob>)
    ensures FieldKnob(spec, path, id, f) == if k.Some? then [k.value] else []
  {
    var raw := ScalarString(spec, f.key);
    if raw.None? {
      return None;
    }
    k := Some(Knob("agent:" + id + "." + f.key, Agent, id, f.key, path, f.domain.Normalize(raw.value), f.domain, true));
  }

  /** reflectAgents on one parsed file. */
  method ScanFields(spec: seq<Entry>, path: Path, id: string, fields: seq<Field>) returns (found: seq<Knob>)
    ensures found == FieldKnobs(spec, path, id, fields)
  {
    found := [];
    for i := 0 to |fields|
      invariant found == FirstFields(spec, path, id, fields, i)
    {
      var k := ReadField(spec, path, id, fields[i]);
      ghost var before := found;
      if k.None? {
        assert before + [] == before;
        continue;
      }
      found := found + [k.value];
    }
    FirstFieldsWhole(spec, path, id, fields);
  }

  /** A file that does not parse is skipped. */
  method ScanFile(disk: Files, af: AgentFile, fields: seq<Field>) returns (found: seq<Knob>)
    requires fields == AgentFields()
    ensures found == FileKnobs(disk, af)
  {
    var doc := Load(disk, af.path);
    if doc.None? {
      return [];
    }
    var spec := Target(doc.value, true);
    found := ScanFields(spec, af.path, AgentID(spec, af.stem), fields);
  }

  /** reflectAgents: the sorted directory, capped. */
  method ScanAgents(disk: Files, agents: seq<AgentFile>, fields: seq<Field>) returns (found: seq<Knob>)
    requires fields == AgentFields()
    ensures found == AgentKnobs(disk, if |agents| > MAX_AGENT_FILES then agents[..MAX_AGENT_FILES] else agents)
  {
    var names := if |agents| > MAX_AGENT_FILES then agents[..MAX_AGENT_FILES] else agents;
    found := [];
    for i := 0 to |names|
      invariant found == FirstFiles(disk, names, i)
    {
      var more := ScanFile(disk, names[i], fields);
      found := found + more;
    }
    FirstFilesWhole(disk, names);
  }

  /** reflectConfig: the whitelist in order, each key from the file or from the defaults. */
  method ScanConfig(disk: Files, layout: Layout, fields: seq<Field>) returns (found: seq<Knob>)
    requires fields == ConfigFields()
    ensures found == ConfigKnobs(disk, layout)
  {
    found := [];
    var doc := Load(disk, layout.config);
    if doc.None? {
      return;
    }
    found := ScanKeys(doc.value, layout, fields);
  }

  method ScanKeys(root: seq<Entry>, layout: Layout, fields: seq<Field>) returns (found: seq<Knob>)
    ensures found == KeyKnobs(root, layout, fields)
  {
    found := [];
    for i := 0 to |fields|
      invariant found == FirstKeys(root, layout, fields, i)
    {
      var k := ReadKey(root, layout, fields[i]);
      if k.None? {
        continue;
      }
      found := found + [k.value];
    }
    FirstKeysWhole(root, layout, fields);
  }

  /** One whitelisted key: its file value, else its default, else no knob at all. */
  method ReadKey(root: seq<Entry>, layout: Layout, f: Field) returns (k: Option<Knob>)
    ensures KeyKnob(root, layout, f) == if k.Some? then [k.value] else []
  {
    if !IsWhitelisted(f.key) {
      return None;
    }
    var domain := ScaleDomain(f.key, f.domain, layout.window);
    var raw := ScalarString(root, f.key);
    var value := "";
    if raw.Some? {
      value := raw.value;
    } else if f.key in layout.defaults {
      value := layout.defaults[f.key];
    } else {
      return None;
    }
    k := Some(Knob("config:" + f.key, Config, "", f.key, layout.config, domain.Normalize(value), domain, raw.Some?));
  }

  /** The document with one scalar set in place. */
  method EditDoc(root: seq<Entry>, k: Knob, value: string) returns (edited: seq<Entry>)
    ensures edited == EditFor(root, k, value)
  {
    var doc := new YamlDoc(root);
    doc.SetScalar(k.source == Agent, k.field, value, k.domain.kind);
    edited := doc.root;
  }

  class LiveSurface {
    var knobs: seq<Knob>
    var byID: map<string, nat>

    /** byID is the last index of every id. */
    ghost predicate Valid()
      reads this
    {
      forall id :: (id in byID <==> Lookup(knobs, id).Some?) && (id in byID ==> Some(byID[id]) == Lookup(knobs, id))
    }

    /** Reflect. */
    constructor (disk: Files, layout: Layout)
      ensures Valid() && knobs == Reflect(disk, layout)
      ensures Ordering.Ascends(knobs) && Ordering.LeavesOnlyLater(knobs, Found(disk, layout))
      ensures |knobs| == if |Found(disk, layout)| <= 512 then |Found(disk, layout)| else 512
    {
      var found: seq<Knob> := [];
      if !layout.noAgents {
        found := ScanAgents(disk, layout.agents, AgentFields());
      }
      assert found == AgentKnobs(disk, FirstAgents(layout));
      if !layout.noConfig {
        var more := ScanConfig(disk, layout, ConfigFields());
        found := found + more;
      }
      assert found == Found(disk, layout);
      var sorted := SortByID(found);
      if |sorted| > MAX_KNOBS {
        sorted := sorted[..MAX_KNOBS];
      }
      Ordering.ReflectIsOrdered(disk, layout, "");
      knobs := sorted;
      byID := map[];
      new;
      Reindex();
    }

    method Reindex()
      modifies this`byID
      ensures Valid()
    {
      byID := map[];
      for i := 0 to |knobs|
        invariant forall id :: (id in byID <==> Lookup(knobs[..i], id).Some?)
                               && (id in byID ==> Some(byID[id]) == Lookup(knobs[..i], id))
      {
        byID := byID[knobs[i].id := i];
        assert knobs[..i + 1][..i] == knobs[..i];
      }
      assert knobs[..|knobs|] == knobs;
    }

    method Find(id: string) returns (k: Option<Knob>)
      requires Valid()
      ensures k == if Lookup(knobs, id).Some? then Some(knobs[Lookup(knobs, id).value]) else None
    {
      if id in byID {
        k := Some(knobs[byID[id]]);
      } else {
        k := None;
      }
    }

    /** Files: each file once, in ascending order; exactly what a snapshot must capture. */
    method FileList() returns (out: seq<Path>)
      requires forall k :: k in knobs ==> k.file.Project?
      ensures Ascending(out)
      ensures forall p :: p in out <==> p in FileSet(knobs) && p != Project("")
    {
      var seen: set<Path> := {};
      out := [];
      for i := 0 to |knobs|
        invariant forall p :: p in out <==> p in seen
        invariant seen == FileSet(knobs[..i]) - {Project("")}
        invariant Distinct(out) && forall p :: p in out ==> p.Project?
      {
        var k := knobs[i];
        assert FileSet(knobs[..i + 1]) == FileSet(knobs[..i]) + {k.file} by {
          assert knobs[..i + 1] == knobs[..i] + [k];
        }
        if k.file == Project("") || k.file in seen {
          continue;
        }
        seen := seen + {k.file};
        out := out + [k.file];
      }
      assert knobs[..|knobs|] == knobs;
      SortPathsSorts(out);
      SameMembers(SortPaths(out), out);
      out := SortPaths(out);
    }

    /** Apply: check, edit the parsed document, write it, then move the value in memory. */
    method ApplyChange(fs: FileSystem, c: Change, writeError: Option<string>) returns (error: Option<string>)
      requires Valid() && fs.Valid()
      modifies this`knobs, fs
      ensures Valid() && fs.Valid()
      ensures match Apply(old(knobs), old(fs.files), c, writeError)
              case Refused(e) => error == Some(e) && knobs == old(knobs) && fs.files == old(fs.files)
                                 && fs.history == old(fs.history)
              case Written(knobs', disk') => error == None && knobs == knobs' && fs.files == disk'
                                             && fs.history == old(fs.history) + [disk']
      ensures var at := Lookup(old(knobs), c.knobID);
              error.None? <==>
                && at.Some? && MayWrite(old(knobs)[at.value]) && Load(old(fs.files), old(knobs)[at.value].file).Some?
                && Membership.InBounds(old(knobs)[at.value].domain, old(knobs)[at.value].domain.Normalize(c.after))
                && writeError.None?
    {
      Membership.AppliedIff(knobs, fs.files, c, writeError);
      if c.knobID !in byID {
        return Some("knob is not on the mutable surface: " + c.knobID);
      }
      var i := byID[c.knobID];
      assert Lookup(knobs, c.knobID) == Some(i);
      var k := knobs[i];
      if k.source == Config && !IsWhitelisted(k.field) {
        return Some("field is not whitelisted: " + k.field);
      }
      if k.source == Agent && !IsAgentField(k.field) {
        return Some("field is not whitelisted: " + k.field);
      }
      var value := k.domain.Normalize(c.after);
      if !k.domain.Allows(value) {
        return Some("outside the domain: " + c.after);
      }
      var root := Load(fs.files, k.file);
      if root.None? {
        return Some("parse error: " + k.field);
      }
      var edited := EditDoc(root.value, k, value);
      if writeError.Some? {
        return Some("write: " + writeError.value);
      }
      fs.Write(k.file, Document(edited));
      knobs := knobs[i := k.(value := value, inFile := true)];
      KeepsIndex(old(knobs), i, knobs[i]);
      error := None;
    }

    method Set(id: string, value: string)
      requires Valid()
      modifies this`knobs
      ensures Valid() && knobs == SetValue(old(knobs), id, value)
    {
      if id in byID {
        var i := byID[id];
        knobs := knobs[i := knobs[i].(value := value)];
        KeepsIndex(old(knobs), i, knobs[i]);
      }
    }
  }

  lemma KeepsIndex(knobs: seq<Knob>, i: nat, k: Knob)
    requires i < |knobs| && k.id == knobs[i].id
    ensures forall id :: Lookup(knobs[i := k], id) == Lookup(knobs, id)
  {
    forall id ensures Lookup(knobs[i := k], id) == Lookup(knobs, id) {
      LookupUpdate(knobs, i, k, id);
    }
  }
}
