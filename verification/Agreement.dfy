/** After an edit, reflecting the disk again gives the surface held in memory. */
module Agreement {
  import opened Text
  import opened Domains
  import opened Whitelist
  import opened YamlEdit
  import opened Disk
  import opened Surface

  // ---- sorting only looks at ids ------------------------------------------

  lemma {:induction false} InsertMap(f: Knob -> Knob, k: Knob, s: seq<Knob>)
    requires forall x :: f(x).id == x.id
    ensures Insert(f(k), Map(f, s)) == Map(f, Insert(k, s))
  {
    if s != [] && Less(s[0].id, k.id) {
      InsertMap(f, k, s[1..]);
    }
  }

  lemma {:induction false} SortMap(f: Knob -> Knob, s: seq<Knob>)
    requires forall x :: f(x).id == x.id
    ensures SortByID(Map(f, s)) == Map(f, SortByID(s))
  {
    if s != [] {
      SortMap(f, s[1..]);
      InsertMap(f, s[0], SortByID(s[1..]));
    }
  }

  lemma MapConcat(f: Knob -> Knob, a: seq<Knob>, b: seq<Knob>)
    ensures Map(f, a + b) == Map(f, a) + Map(f, b)
  {
  }

  lemma InsertMembers(k: Knob, s: seq<Knob>)
    ensures |Insert(k, s)| == |s| + 1
    ensures multiset(Insert(k, s)) == multiset(s) + multiset{k}
  {
    if s != [] && Less(s[0].id, k.id) {
      InsertMembers(k, s[1..]);
      assert s == [s[0]] + s[1..];
    }
  }

  lemma SortMembers(s: seq<Knob>)
    ensures |SortByID(s)| == |s| && multiset(SortByID(s)) == multiset(s)
  {
    if s != [] {
      SortMembers(s[1..]);
      InsertMembers(s[0], SortByID(s[1..]));
      assert s == [s[0]] + s[1..];
    }
  }

  lemma ReflectedWereFound(disk: Files, layout: Layout, k: Knob)
    requires k in Reflect(disk, layout)
    ensures k in Found(disk, layout)
  {
    SortMembers(Found(disk, layout));
    assert k in multiset(SortByID(Found(disk, layout)));
  }

  // ---- where a knob comes from --------------------------------------------

  /** The facts Reflect establishes about one knob; none of them mentions InFile. */
  ghost predicate Sound(disk: Files, layout: Layout, k: Knob) {
    var doc := Load(disk, k.file);
    && doc.Some?
    && match k.source
       case Agent =>
         && (exists af :: af in FirstAgents(layout) && af.path == k.file)
         && (exists f :: f in AgentFields() && f.key == k.field && f.domain == k.domain)
         && ScalarString(Target(doc.value, true), k.field).Some?
         && k.value == k.domain.Normalize(ScalarString(Target(doc.value, true), k.field).value)
       case Config =>
         && !layout.noConfig && k.file == layout.config
         && (exists f :: f in ConfigFields() && f.key == k.field
                         && ScaleDomain(f.key, f.domain, layout.window) == k.domain)
         && var raw := ScalarString(doc.value, k.field);
            && (raw.Some? || k.field in layout.defaults)
            && k.value == k.domain.Normalize(if raw.Some? then raw.value else layout.defaults[k.field])
  }

  lemma {:induction false} FieldKnobsSound(disk: Files, layout: Layout, af: AgentFile, id: string, fields: seq<Field>)
    requires af in FirstAgents(layout) && Load(disk, af.path).Some?
    requires forall f :: f in fields ==> f in AgentFields()
    ensures forall k :: k in FieldKnobs(Target(Load(disk, af.path).value, true), af.path, id, fields) ==>
                          Sound(disk, layout, k) && k.file == af.path && k.source == Agent
  {
    if fields != [] {
      FieldKnobsSound(disk, layout, af, id, fields[1..]);
      assert fields[0] in AgentFields();
    }
  }

  lemma {:induction false} AgentKnobsSound(disk: Files, layout: Layout, files: seq<AgentFile>)
    requires forall af :: af in files ==> af in FirstAgents(layout)
    ensures forall k :: k in AgentKnobs(disk, files) ==> Sound(disk, layout, k) && k.source == Agent
  {
    if files != [] {
      AgentKnobsSound(disk, layout, files[1..]);
      assert files[0] in FirstAgents(layout);
      var doc := Load(disk, files[0].path);
      if doc.Some? {
        var spec := Target(doc.value, true);
        FieldKnobsSound(disk, layout, files[0], AgentID(spec, files[0].stem), AgentFields());
      }
    }
  }

  lemma KeyKnobSound(disk: Files, layout: Layout, f: Field)
    requires Load(disk, layout.config).Some? && !layout.noConfig && f in ConfigFields()
    ensures forall k :: k in KeyKnob(Load(disk, layout.config).value, layout, f) ==>
                          Sound(disk, layout, k) && k.source == Config && k.file == layout.config
  {
  }

  lemma {:induction false} KeyKnobsSound(disk: Files, layout: Layout, fields: seq<Field>)
    requires Load(disk, layout.config).Some? && !layout.noConfig
    requires forall f :: f in fields ==> f in ConfigFields()
    ensures forall k :: k in KeyKnobs(Load(disk, layout.config).value, layout, fields) ==>
                          Sound(disk, layout, k) && k.source == Config && k.file == layout.config
  {
    if fields != [] {
      KeyKnobsSound(disk, layout, fields[1..]);
      KeyKnobSound(disk, layout, fields[0]);
    }
  }

  /** Every reflected knob holds what its file says, within a whitelisted field. */
  lemma ReflectSound(disk: Files, layout: Layout, k: Knob)
    requires k in Reflect(disk, layout)
    ensures Sound(disk, layout, k)
  {
    ReflectedWereFound(disk, layout, k);
    AgentKnobsSound(disk, layout, FirstAgents(layout));
    if !layout.noConfig && Load(disk, layout.config).Some? {
      KeyKnobsSound(disk, layout, ConfigFields());
    }
  }

  /** A knob of any surface that agrees with the disk is sound. */
  lemma AgreeingKnobSound(disk: Files, layout: Layout, knobs: seq<Knob>, i: nat)
    requires Agrees(layout, disk, knobs) && i < |knobs|
    ensures i < |Reflect(disk, layout)| && Forget(Reflect(disk, layout)[i]) == Forget(knobs[i])
    ensures Sound(disk, layout, knobs[i])
  {
    var r := Reflect(disk, layout);
    assert |Values(r)| == |r| && |Values(knobs)| == |knobs|;
    assert Values(r)[i] == Forget(r[i]) && Values(knobs)[i] == Forget(knobs[i]);
    ReflectSound(disk, layout, r[i]);
  }

  /** The re-checks Apply makes always pass on a reflected knob, and its domain is coherent. */
  lemma SoundMayWrite(disk: Files, layout: Layout, k: Knob)
    requires Sound(disk, layout, k)
    ensures MayWrite(k) && WellGridded(k.domain)
    ensures k.source == Agent ==> k.field != "spec" && k.field != "id"
    ensures k.source == Config ==> k.field !in SENSITIVE && k.field in CONFIG_KEYS
  {
    match k.source {
      case Agent =>
        var f :| f in AgentFields() && f.key == k.field && f.domain == k.domain;
        AgentFieldShipped(f);
      case Config =>
        var f :| f in ConfigFields() && f.key == k.field && ScaleDomain(f.key, f.domain, layout.window) == k.domain;
        ConfigFieldShipped(f, layout.window);
    }
  }

  // ---- one edit, seen from the disk ---------------------------------------

  /** The knob at a place takes a value; every other knob is left alone. */
  function MoveKnob(k: Knob, file: Path, field: string, v: string): Knob {
    if k.file == file && k.field == field then k.(value := v) else k
  }

  function Moved(knobs: seq<Knob>, file: Path, field: string, v: string): seq<Knob> {
    Map(k => MoveKnob(Forget(k), file, field, v), knobs)
  }

  lemma MovedConcat(a: seq<Knob>, b: seq<Knob>, file: Path, field: string, v: string)
    ensures Moved(a + b, file, field, v) == Moved(a, file, field, v) + Moved(b, file, field, v)
    ensures Values(a + b) == Values(a) + Values(b)
  {
    MapConcat(k => MoveKnob(Forget(k), file, field, v), a, b);
    MapConcat(Forget, a, b);
  }

  /** Knobs of other files do not move. */
  lemma MovedElsewhere(knobs: seq<Knob>, file: Path, field: string, v: string)
    requires forall k :: k in knobs ==> k.file != file
    ensures Moved(knobs, file, field, v) == Values(knobs)
  {
  }

  lemma PutScalar(m: seq<Entry>, key: string, v: string, kind: Kind, other: string)
    ensures var m' := Put(m, key, ScalarNode(v, kind));
            ScalarString(m', other) == if other == key then Some(v) else ScalarString(m, other)
  {
    PutGet(m, key, ScalarNode(v, kind));
    if other != key {
      PutOther(m, key, ScalarNode(v, kind), other);
    }
  }

  lemma {:induction false} FieldKnobsMove(spec: seq<Entry>, path: Path, id: string, fields: seq<Field>,
                                          key: string, v: string, kind: Kind)
    requires ScalarString(spec, key).Some? && Fits(fields, key, v)
    ensures Values(FieldKnobs(Put(spec, key, ScalarNode(v, kind)), path, id, fields))
         == Moved(FieldKnobs(spec, path, id, fields), path, key, v)
  {
    if fields != [] {
      var f := fields[0];
      var spec' := Put(spec, key, ScalarNode(v, kind));
      FieldKnobsMove(spec, path, id, fields[1..], key, v, kind);
      PutScalar(spec, key, v, kind, f.key);
      MovedConcat(FieldKnob(spec, path, id, f), FieldKnobs(spec, path, id, fields[1..]), path, key, v);
      MovedConcat(FieldKnob(spec', path, id, f), FieldKnobs(spec', path, id, fields[1..]), path, key, v);
    }
  }

  lemma {:induction false} KeyKnobsMove(root: seq<Entry>, layout: Layout, fields: seq<Field>,
                                        key: string, v: string, kind: Kind)
    requires ScalarString(root, key).Some? || key in layout.defaults
    requires FitsScaled(fields, key, v, layout.window)
    ensures Values(KeyKnobs(Put(root, key, ScalarNode(v, kind)), layout, fields))
         == Moved(KeyKnobs(root, layout, fields), layout.config, key, v)
  {
    if fields != [] {
      var f := fields[0];
      var root' := Put(root, key, ScalarNode(v, kind));
      KeyKnobsMove(root, layout, fields[1..], key, v, kind);
      PutScalar(root, key, v, kind, f.key);
      MovedConcat(KeyKnob(root, layout, f), KeyKnobs(root, layout, fields[1..]), layout.config, key, v);
      MovedConcat(KeyKnob(root', layout, f), KeyKnobs(root', layout, fields[1..]), layout.config, key, v);
    }
  }

  lemma {:induction false} FieldKnobsFile(spec: seq<Entry>, path: Path, id: string, fields: seq<Field>)
    ensures forall k :: k in FieldKnobs(spec, path, id, fields) ==> k.file == path
  {
    if fields != [] {
      FieldKnobsFile(spec, path, id, fields[1..]);
    }
  }

  lemma {:induction false} KeyKnobsFile(root: seq<Entry>, layout: Layout, fields: seq<Field>)
    ensures forall k :: k in KeyKnobs(root, layout, fields) ==> k.file == layout.config
  {
    if fields != [] {
      KeyKnobsFile(root, layout, fields[1..]);
    }
  }

  lemma {:induction false} AgentKnobsFile(disk: Files, files: seq<AgentFile>)
    ensures forall k :: k in AgentKnobs(disk, files) ==> exists af :: af in files && af.path == k.file
  {
    if files != [] {
      AgentKnobsFile(disk, files[1..]);
      var doc := Load(disk, files[0].path);
      if doc.Some? {
        var spec := Target(doc.value, true);
        FieldKnobsFile(spec, files[0].path, AgentID(spec, files[0].stem), AgentFields());
      }
      assert files[0] in files;
    }
  }

  lemma {:induction false} AgentKnobsUnchanged(disk: Files, disk': Files, files: seq<AgentFile>)
    requires forall af :: af in files ==> Load(disk, af.path) == Load(disk', af.path)
    ensures AgentKnobs(disk, files) == AgentKnobs(disk', files)
  {
    if files != [] {
      AgentKnobsUnchanged(disk, disk', files[1..]);
      assert files[0] in files;
    }
  }

  /** The disk after knob k's place took the value v. */
  function AfterEdit(disk: Files, k: Knob, v: string): Files
    requires Load(disk, k.file).Some?
  {
    disk[k.file := Document(EditFor(Load(disk, k.file).value, k, v))]
  }

  /** v is in normal form wherever `key` may be a field. */
  ghost predicate Fits(fields: seq<Field>, key: string, v: string) {
    forall f :: f in fields && f.key == key ==> f.domain.Normalize(v) == v
  }

  ghost predicate FitsScaled(fields: seq<Field>, key: string, v: string, window: int) {
    forall f :: f in fields && f.key == key ==> ScaleDomain(f.key, f.domain, window).Normalize(v) == v
  }

  /** disk' is disk with `path` edited at `key`, as an agent file. */
  ghost predicate AgentEdit(disk: Files, disk': Files, path: Path, key: string, node: Node) {
    && key != "spec" && key != "id"
    && Load(disk, path).Some?
    && ScalarString(Target(Load(disk, path).value, true), key).Some?
    && Load(disk', path) == Some(Edit(Load(disk, path).value, true, key, node))
    && forall p :: p != path ==> Load(disk', p) == Load(disk, p)
  }

  /** An edit of one agent file moves exactly that file's knob. */
  lemma FileKnobsMove(disk: Files, disk': Files, af: AgentFile, key: string, v: string, kind: Kind)
    requires AgentEdit(disk, disk', af.path, key, ScalarNode(v, kind)) && Fits(AgentFields(), key, v)
    ensures Values(FileKnobs(disk', af)) == Moved(FileKnobs(disk, af), af.path, key, v)
  {
    var root := Load(disk, af.path).value;
    var spec := Target(root, true);
    EditTarget(root, true, key, ScalarNode(v, kind));
    PutScalar(spec, key, v, kind, "id");
    FieldKnobsMove(spec, af.path, AgentID(spec, af.stem), AgentFields(), key, v, kind);
  }

  lemma OtherFileStays(disk: Files, disk': Files, af: AgentFile, path: Path, key: string, v: string)
    requires af.path != path && Load(disk', af.path) == Load(disk, af.path)
    ensures Values(FileKnobs(disk', af)) == Moved(FileKnobs(disk, af), path, key, v)
  {
    var doc := Load(disk, af.path);
    if doc.Some? {
      var spec := Target(doc.value, true);
      FieldKnobsFile(spec, af.path, AgentID(spec, af.stem), AgentFields());
    }
    MovedElsewhere(FileKnobs(disk, af), path, key, v);
  }

  lemma {:induction false} AgentKnobsMove(disk: Files, disk': Files, files: seq<AgentFile>, path: Path,
                                          key: string, v: string, kind: Kind)
    requires AgentEdit(disk, disk', path, key, ScalarNode(v, kind)) && Fits(AgentFields(), key, v)
    ensures Values(AgentKnobs(disk', files)) == Moved(AgentKnobs(disk, files), path, key, v)
  {
    if files != [] {
      var af, rest := files[0], files[1..];
      AgentKnobsMove(disk, disk', rest, path, key, v, kind);
      if af.path == path {
        FileKnobsMove(disk, disk', af, key, v, kind);
      } else {
        OtherFileStays(disk, disk', af, path, key, v);
      }
      ConcatMoves(FileKnobs(disk, af), FileKnobs(disk', af), AgentKnobs(disk, rest), AgentKnobs(disk', rest), path,
                  key, v);
    }
  }

  lemma ConcatMoves(a: seq<Knob>, a': seq<Knob>, b: seq<Knob>, b': seq<Knob>, path: Path, key: string, v: string)
    requires Values(a') == Moved(a, path, key, v) && Values(b') == Moved(b, path, key, v)
    ensures Values(a' + b') == Moved(a + b, path, key, v)
  {
    MovedConcat(a, b, path, key, v);
    MovedConcat(a', b', path, key, v);
  }

  /** A place of a reflected surface has one domain, so a normal value fits it. */
  lemma AgentFits(k: Knob, v: string)
    requires exists f :: f in AgentFields() && f.key == k.field && f.domain == k.domain
    requires k.domain.Normalize(v) == v
    ensures Fits(AgentFields(), k.field, v)
  {
    var f :| f in AgentFields() && f.key == k.field && f.domain == k.domain;
    forall g | g in AgentFields() && g.key == k.field ensures g.domain.Normalize(v) == v {
      AgentFieldUnique(f, g);
    }
  }

  lemma ConfigFits(k: Knob, v: string, window: int)
    requires exists f :: f in ConfigFields() && f.key == k.field && ScaleDomain(f.key, f.domain, window) == k.domain
    requires k.domain.Normalize(v) == v
    ensures FitsScaled(ConfigFields(), k.field, v, window)
  {
    var f :| f in ConfigFields() && f.key == k.field && ScaleDomain(f.key, f.domain, window) == k.domain;
    forall g | g in ConfigFields() && g.key == k.field
      ensures ScaleDomain(g.key, g.domain, window).Normalize(v) == v
    {
      ConfigFieldUnique(f, g);
    }
  }

  lemma AgentPaths(layout: Layout)
    requires Separate(layout)
    ensures forall af :: af in FirstAgents(layout) ==> af.path != layout.config && af.path.Project?
  {
    forall af | af in FirstAgents(layout) ensures af.path != layout.config && af.path.Project? {
      var i :| 0 <= i < |FirstAgents(layout)| && FirstAgents(layout)[i] == af;
      assert layout.agents[i] == af;
    }
  }

  lemma AfterEditIsAgentEdit(disk: Files, k: Knob, v: string)
    requires k.source == Agent && k.field != "spec" && k.field != "id" && Load(disk, k.file).Some?
    requires ScalarString(Target(Load(disk, k.file).value, true), k.field).Some?
    ensures AgentEdit(disk, AfterEdit(disk, k, v), k.file, k.field, ScalarNode(v, k.domain.kind))
  {
  }

  lemma AgentSide(disk: Files, layout: Layout, k: Knob, v: string)
    requires Sound(disk, layout, k) && k.source == Agent && k.domain.Normalize(v) == v
    ensures Values(AgentKnobs(AfterEdit(disk, k, v), FirstAgents(layout)))
         == Moved(AgentKnobs(disk, FirstAgents(layout)), k.file, k.field, v)
  {
    SoundMayWrite(disk, layout, k);
    AfterEditIsAgentEdit(disk, k, v);
    AgentFits(k, v);
    AgentKnobsMove(disk, AfterEdit(disk, k, v), FirstAgents(layout), k.file, k.field, v, k.domain.kind);
  }

  lemma ConfigKnobsMove(disk: Files, disk': Files, layout: Layout, key: string, v: string, kind: Kind)
    requires Load(disk, layout.config).Some?
    requires Load(disk', layout.config) == Some(Put(Load(disk, layout.config).value, key, ScalarNode(v, kind)))
    requires ScalarString(Load(disk, layout.config).value, key).Some? || key in layout.defaults
    requires FitsScaled(ConfigFields(), key, v, layout.window)
    ensures Values(ConfigKnobs(disk', layout)) == Moved(ConfigKnobs(disk, layout), layout.config, key, v)
  {
    KeyKnobsMove(Load(disk, layout.config).value, layout, ConfigFields(), key, v, kind);
  }

  lemma ConfigSide(disk: Files, layout: Layout, k: Knob, v: string)
    requires k.source == Config && k.file == layout.config && !layout.noConfig && Load(disk, k.file).Some?
    requires ScalarString(Load(disk, k.file).value, k.field).Some? || k.field in layout.defaults
    requires FitsScaled(ConfigFields(), k.field, v, layout.window)
    ensures Values(ConfigPart(AfterEdit(disk, k, v), layout))
         == Moved(ConfigPart(disk, layout), k.file, k.field, v)
  {
    ConfigKnobsMove(disk, AfterEdit(disk, k, v), layout, k.field, v, k.domain.kind);
  }

  /** The config knobs, when they are on the surface at all. */
  function ConfigPart(disk: Files, layout: Layout): seq<Knob> {
    if layout.noConfig then [] else ConfigKnobs(disk, layout)
  }

  lemma ConfigPartStays(disk: Files, disk': Files, layout: Layout, path: Path, key: string, v: string)
    requires path != layout.config && Load(disk', layout.config) == Load(disk, layout.config)
    ensures Values(ConfigPart(disk', layout)) == Moved(ConfigPart(disk, layout), path, key, v)
  {
    var doc := Load(disk, layout.config);
    if doc.Some? {
      KeyKnobsFile(doc.value, layout, ConfigFields());
    }
    MovedElsewhere(ConfigPart(disk, layout), path, key, v);
  }

  lemma AgentPartStays(disk: Files, disk': Files, files: seq<AgentFile>, path: Path, key: string, v: string)
    requires forall af :: af in files ==> af.path != path && Load(disk', af.path) == Load(disk, af.path)
    ensures Values(AgentKnobs(disk', files)) == Moved(AgentKnobs(disk, files), path, key, v)
  {
    AgentKnobsUnchanged(disk, disk', files);
    AgentKnobsFile(disk, files);
    MovedElsewhere(AgentKnobs(disk, files), path, key, v);
  }

  lemma AgentsElsewhere(disk: Files, layout: Layout, k: Knob, v: string)
    requires Separate(layout) && Sound(disk, layout, k) && k.source == Config
    ensures forall af :: af in FirstAgents(layout) ==>
              af.path != k.file && Load(AfterEdit(disk, k, v), af.path) == Load(disk, af.path)
  {
    AgentPaths(layout);
  }

  lemma ConfigElsewhere(disk: Files, layout: Layout, k: Knob, v: string)
    requires Separate(layout) && Sound(disk, layout, k) && k.source == Agent
    ensures k.file != layout.config && Load(AfterEdit(disk, k, v), layout.config) == Load(disk, layout.config)
  {
    AgentPaths(layout);
  }

  /** One allowed edit of the disk moves exactly one place of what Reflect finds. */
  lemma FoundMoves(disk: Files, layout: Layout, k: Knob, v: string)
    requires Separate(layout) && Sound(disk, layout, k) && k.domain.Normalize(v) == v
    ensures Values(Found(AfterEdit(disk, k, v), layout)) == Moved(Found(disk, layout), k.file, k.field, v)
  {
    var files, disk' := FirstAgents(layout), AfterEdit(disk, k, v);
    match k.source {
      case Agent =>
        AgentSide(disk, layout, k, v);
        ConfigElsewhere(disk, layout, k, v);
        ConfigPartStays(disk, disk', layout, k.file, k.field, v);
      case Config =>
        ConfigFits(k, v, layout.window);
        ConfigSide(disk, layout, k, v);
        AgentsElsewhere(disk, layout, k, v);
        AgentPartStays(disk, disk', files, k.file, k.field, v);
    }
    ConcatMoves(AgentKnobs(disk, files), AgentKnobs(disk', files),
                ConfigPart(disk, layout), ConfigPart(disk', layout), k.file, k.field, v);
  }

  // ---- one place, one knob -------------------------------------------------

  /** How many knobs sit at one place. */
  function CountAt(knobs: seq<Knob>, file: Path, field: string): nat {
    if knobs == [] then 0
    else (if knobs[0].file == file && knobs[0].field == field then 1 else 0) + CountAt(knobs[1..], file, field)
  }

  lemma {:induction false} CountConcat(a: seq<Knob>, b: seq<Knob>, file: Path, field: string)
    ensures CountAt(a + b, file, field) == CountAt(a, file, field) + CountAt(b, file, field)
  {
    if a == [] {
      assert a + b == b;
    } else {
      CountConcat(a[1..], b, file, field);
      assert (a + b)[1..] == a[1..] + b;
    }
  }

  lemma {:induction false} CountInsert(k: Knob, s: seq<Knob>, file: Path, field: string)
    ensures CountAt(Insert(k, s), file, field) == CountAt([k], file, field) + CountAt(s, file, field)
  {
    if s != [] && Less(s[0].id, k.id) {
      CountInsert(k, s[1..], file, field);
    } else {
      CountConcat([k], s, file, field);
    }
  }

  lemma {:induction false} CountSort(s: seq<Knob>, file: Path, field: string)
    ensures CountAt(SortByID(s), file, field) == CountAt(s, file, field)
  {
    if s != [] {
      CountSort(s[1..], file, field);
      CountInsert(s[0], SortByID(s[1..]), file, field);
    }
  }

  lemma CountCap(s: seq<Knob>, file: Path, field: string)
    ensures CountAt(Cap(s), file, field) <= CountAt(s, file, field)
  {
    if |s| > MAX_KNOBS {
      assert s == s[..MAX_KNOBS] + s[MAX_KNOBS..];
      CountConcat(s[..MAX_KNOBS], s[MAX_KNOBS..], file, field);
    }
  }

  lemma {:induction false} CountNone(s: seq<Knob>, file: Path, field: string)
    requires forall k :: k in s ==> k.file != file
    ensures CountAt(s, file, field) == 0
  {
    if s != [] {
      CountNone(s[1..], file, field);
    }
  }

  lemma {:induction false} CountFieldKnobs(spec: seq<Entry>, path: Path, id: string, fields: seq<Field>, field: string)
    ensures CountAt(FieldKnobs(spec, path, id, fields), path, field) <= KeyCount(fields, field)
  {
    if fields != [] {
      CountFieldKnobs(spec, path, id, fields[1..], field);
      CountConcat(FieldKnob(spec, path, id, fields[0]), FieldKnobs(spec, path, id, fields[1..]), path, field);
    }
  }

  lemma {:induction false} CountKeyKnobs(root: seq<Entry>, layout: Layout, fields: seq<Field>, field: string)
    ensures CountAt(KeyKnobs(root, layout, fields), layout.config, field) <= KeyCount(fields, field)
  {
    if fields != [] {
      CountKeyKnobs(root, layout, fields[1..], field);
      CountConcat(KeyKnob(root, layout, fields[0]), KeyKnobs(root, layout, fields[1..]), layout.config, field);
    }
  }

  lemma CountFileKnobs(disk: Files, af: AgentFile, file: Path, field: string)
    ensures CountAt(FileKnobs(disk, af), file, field) <= if af.path == file then 1 else 0
  {
    var doc := Load(disk, af.path);
    if doc.Some? {
      var spec := Target(doc.value, true);
      AgentKeysDistinct();
      KeyCountDistinct(AgentFields(), field);
      CountFieldKnobs(spec, af.path, AgentID(spec, af.stem), AgentFields(), field);
      FieldKnobsFile(spec, af.path, AgentID(spec, af.stem), AgentFields());
      if af.path != file {
        CountNone(FileKnobs(disk, af), file, field);
      }
    }
  }

  lemma {:induction false} CountAgentKnobs(disk: Files, files: seq<AgentFile>, file: Path, field: string)
    requires forall i, j :: 0 <= i < j < |files| ==> files[i].path != files[j].path
    ensures CountAt(AgentKnobs(disk, files), file, field) <= 1
    ensures (forall af :: af in files ==> af.path != file) ==> CountAt(AgentKnobs(disk, files), file, field) == 0
  {
    if files != [] {
      CountAgentKnobs(disk, files[1..], file, field);
      CountFileKnobs(disk, files[0], file, field);
      CountConcat(FileKnobs(disk, files[0]), AgentKnobs(disk, files[1..]), file, field);
    }
  }

  lemma CountConfigPart(disk: Files, layout: Layout, file: Path, field: string)
    ensures CountAt(ConfigPart(disk, layout), file, field) <= if file == layout.config then 1 else 0
  {
    var doc := Load(disk, layout.config);
    if !layout.noConfig && doc.Some? {
      ConfigKeysDistinct();
      KeyCountDistinct(ConfigFields(), field);
      CountKeyKnobs(doc.value, layout, ConfigFields(), field);
      KeyKnobsFile(doc.value, layout, ConfigFields());
      if file != layout.config {
        CountNone(ConfigPart(disk, layout), file, field);
      }
    }
  }

  /** No two reflected knobs write the same field of the same file. */
  lemma ReflectOncePerPlace(disk: Files, layout: Layout, file: Path, field: string)
    requires Separate(layout)
    ensures CountAt(Reflect(disk, layout), file, field) <= 1
  {
    var files := FirstAgents(layout);
    AgentPaths(layout);
    CountAgentKnobs(disk, files, file, field);
    CountConfigPart(disk, layout, file, field);
    CountConcat(AgentKnobs(disk, files), ConfigPart(disk, layout), file, field);
    CountSort(Found(disk, layout), file, field);
    CountCap(SortByID(Found(disk, layout)), file, field);
  }

  lemma {:induction false} CountTwice(s: seq<Knob>, i: nat, j: nat)
    requires i < j < |s| && s[i].file == s[j].file && s[i].field == s[j].field
    ensures CountAt(s, s[i].file, s[i].field) >= 2
  {
    if i > 0 {
      CountTwice(s[1..], i - 1, j - 1);
    } else {
      CountMember(s[1..], j - 1);
    }
  }

  lemma {:induction false} CountMember(s: seq<Knob>, i: nat)
    requires i < |s|
    ensures CountAt(s, s[i].file, s[i].field) >= 1
  {
    if i > 0 {
      CountMember(s[1..], i - 1);
    }
  }

  lemma {:induction false} CountValues(s: seq<Knob>, file: Path, field: string)
    ensures CountAt(Values(s), file, field) == CountAt(s, file, field)
  {
    if s != [] {
      CountValues(s[1..], file, field);
    }
  }

  /** On a surface that agrees with the disk, one knob is alone at its place. */
  lemma PlacesDiffer(disk: Files, layout: Layout, knobs: seq<Knob>, i: nat, j: nat)
    requires Separate(layout) && Agrees(layout, disk, knobs) && i < j < |knobs|
    ensures !(knobs[i].file == knobs[j].file && knobs[i].field == knobs[j].field)
  {
    var file, field := knobs[i].file, knobs[i].field;
    ReflectOncePerPlace(disk, layout, file, field);
    CountValues(Reflect(disk, layout), file, field);
    CountValues(knobs, file, field);
    if knobs[j].file == file && knobs[j].field == field {
      CountTwice(knobs, i, j);
    }
  }

  // ---- the agreement theorem ----------------------------------------------

  lemma MoveComposes(s: seq<Knob>, file: Path, field: string, v: string)
    ensures Moved(s, file, field, v) == Map(k => MoveKnob(k, file, field, v), Values(s))
  {
  }

  lemma CapMap(f: Knob -> Knob, s: seq<Knob>)
    ensures Cap(Map(f, s)) == Map(f, Cap(s))
  {
    if |s| > MAX_KNOBS {
      assert Map(f, s)[..MAX_KNOBS] == Map(f, s[..MAX_KNOBS]);
    }
  }

  /** Sorting and capping commute with a move. */
  lemma SortCapMoves(found: seq<Knob>, found': seq<Knob>, file: Path, field: string, v: string)
    requires Values(found') == Moved(found, file, field, v)
    ensures Values(Cap(SortByID(found'))) == Moved(Cap(SortByID(found)), file, field, v)
  {
    var move := x => MoveKnob(Forget(x), file, field, v);
    SortMap(Forget, found');
    SortMap(move, found);
    CapMap(Forget, SortByID(found'));
    CapMap(move, SortByID(found));
  }

  lemma ReflectMoves(disk: Files, layout: Layout, k: Knob, v: string)
    requires Separate(layout) && Sound(disk, layout, k) && k.domain.Normalize(v) == v
    ensures Values(Reflect(AfterEdit(disk, k, v), layout)) == Moved(Reflect(disk, layout), k.file, k.field, v)
  {
    FoundMoves(disk, layout, k, v);
    SortCapMoves(Found(disk, layout), Found(AfterEdit(disk, k, v), layout), k.file, k.field, v);
  }

  lemma MoveInPlace(knobs: seq<Knob>, i: nat, v: string)
    requires i < |knobs|
    requires forall j :: 0 <= j < |knobs| && j != i ==>
               !(knobs[j].file == knobs[i].file && knobs[j].field == knobs[i].field)
    ensures Values(knobs[i := knobs[i].(value := v, inFile := true)])
         == Moved(knobs, knobs[i].file, knobs[i].field, v)
  {
  }

  /** Writing a normal value at one knob keeps surface and disk in agreement. */
  lemma EditAgrees(disk: Files, layout: Layout, knobs: seq<Knob>, i: nat, v: string)
    requires Separate(layout) && Agrees(layout, disk, knobs) && i < |knobs|
    requires knobs[i].domain.Normalize(v) == v
    ensures Load(disk, knobs[i].file).Some?
    ensures Agrees(layout, AfterEdit(disk, knobs[i], v), knobs[i := knobs[i].(value := v, inFile := true)])
  {
    var k := knobs[i];
    AgreeingKnobSound(disk, layout, knobs, i);
    ReflectMoves(disk, layout, k, v);
    MoveComposes(Reflect(disk, layout), k.file, k.field, v);
    MoveComposes(knobs, k.file, k.field, v);
    forall j | 0 <= j < |knobs| && j != i ensures !(knobs[j].file == k.file && knobs[j].field == k.field) {
      if j < i { PlacesDiffer(disk, layout, knobs, j, i); } else { PlacesDiffer(disk, layout, knobs, i, j); }
    }
    MoveInPlace(knobs, i, v);
  }

  lemma AppliedIsNormal(disk: Files, layout: Layout, knobs: seq<Knob>, at: nat, c: Change)
    requires Agrees(layout, disk, knobs) && at < |knobs|
    requires knobs[at].domain.Allows(knobs[at].domain.Normalize(c.after))
    ensures var d := knobs[at].domain; d.Normalize(d.Normalize(c.after)) == d.Normalize(c.after)
  {
    AgreeingKnobSound(disk, layout, knobs, at);
    SoundMayWrite(disk, layout, knobs[at]);
    if knobs[at].domain.kind == KnobFloat {
      AllowedIsSteady(knobs[at].domain, c.after);
    }
    NormalizeIdempotent(knobs[at].domain, c.after);
  }

  /** A successful Apply keeps agreement, for any change whatever proposed it. */
  lemma ApplyAgrees(disk: Files, layout: Layout, knobs: seq<Knob>, c: Change, fault: Option<string>)
    requires Separate(layout) && Agrees(layout, disk, knobs)
    requires Apply(knobs, disk, c, fault).Written?
    ensures var w := Apply(knobs, disk, c, fault); Agrees(layout, w.disk, w.knobs)
  {
    var at := Lookup(knobs, c.knobID).value;
    AppliedIsNormal(disk, layout, knobs, at, c);
    EditAgrees(disk, layout, knobs, at, knobs[at].domain.Normalize(c.after));
  }
}
