/** pkg/autoresearch/surface.go: everything an experiment may mutate. */
module Surface {
  import opened Text
  import opened Domains
  import opened Whitelist
  import opened YamlEdit
  import opened Disk

  const MAX_AGENT_FILES: nat := 64
  const MAX_KNOBS: nat := 512

  datatype Source = Agent | Config

  datatype Knob = Knob(id: string, source: Source, owner: string, field: string, file: Path,
                       value: string, domain: Domain, inFile: bool)

  /** One agent YAML in directory order; stem is its name without the extension. */
  datatype AgentFile = AgentFile(path: Path, stem: string)

  /** What Reflect is told: the sorted directory listing, the config path, the rendered
      built-in defaults and the model's context window. */
  datatype Layout = Layout(agents: seq<AgentFile>, config: Path, defaults: map<string, string>, window: int,
                           noAgents: bool, noConfig: bool)

  /** One knob moving to one new value. */
  datatype Change = Change(knobID: string, before: string, after: string)

  // ---- Reflect ------------------------------------------------------------

  function AgentID(spec: seq<Entry>, stem: string): string {
    var v := ScalarString(spec, "id");
    if v.Some? && Trim(v.value) != "" then ToLower(Trim(v.value)) else ToLower(stem)
  }

  /** The knob for one agent field, if the file has it as a scalar. */
  function FieldKnob(spec: seq<Entry>, path: Path, id: string, f: Field): seq<Knob> {
    var raw := ScalarString(spec, f.key);
    if raw.None? then []
    else [Knob("agent:" + id + "." + f.key, Agent, id, f.key, path, f.domain.Normalize(raw.value), f.domain, true)]
  }

  function FieldKnobs(spec: seq<Entry>, path: Path, id: string, fields: seq<Field>): seq<Knob> {
    if fields == [] then []
    else FieldKnob(spec, path, id, fields[0]) + FieldKnobs(spec, path, id, fields[1..])
  }

  function FileKnobs(disk: Files, af: AgentFile): seq<Knob> {
    var doc := Load(disk, af.path);
    if doc.None? then []
    else
      var spec := Target(doc.value, true);
      FieldKnobs(spec, af.path, AgentID(spec, af.stem), AgentFields())
  }

  function AgentKnobs(disk: Files, files: seq<AgentFile>): seq<Knob> {
    if files == [] then [] else FileKnobs(disk, files[0]) + AgentKnobs(disk, files[1..])
  }

  /** The knob for one whitelisted config key: the file's scalar, else the built-in default. */
  function KeyKnob(root: seq<Entry>, layout: Layout, f: Field): seq<Knob> {
    var domain := ScaleDomain(f.key, f.domain, layout.window);
    var raw := ScalarString(root, f.key);
    if !IsWhitelisted(f.key) || (raw.None? && f.key !in layout.defaults) then []
    else
      var value := if raw.Some? then raw.value else layout.defaults[f.key];
      [Knob("config:" + f.key, Config, "", f.key, layout.config, domain.Normalize(value), domain, raw.Some?)]
  }

  function KeyKnobs(root: seq<Entry>, layout: Layout, fields: seq<Field>): seq<Knob> {
    if fields == [] then []
    else KeyKnob(root, layout, fields[0]) + KeyKnobs(root, layout, fields[1..])
  }

  function ConfigKnobs(disk: Files, layout: Layout): seq<Knob> {
    var doc := Load(disk, layout.config);
    if doc.None? then [] else KeyKnobs(doc.value, layout, ConfigFields())
  }

  /** Stable insertion by id. */
  function Insert(k: Knob, sorted: seq<Knob>): seq<Knob> {
    if sorted == [] || !Less(sorted[0].id, k.id) then [k] + sorted
    else [sorted[0]] + Insert(k, sorted[1..])
  }

  function SortByID(knobs: seq<Knob>): seq<Knob> {
    if knobs == [] then [] else Insert(knobs[0], SortByID(knobs[1..]))
  }

  function FirstAgents(layout: Layout): seq<AgentFile> {
    if layout.noAgents then []
    else if |layout.agents| > MAX_AGENT_FILES then layout.agents[..MAX_AGENT_FILES] else layout.agents
  }

  function Found(disk: Files, layout: Layout): seq<Knob> {
    AgentKnobs(disk, FirstAgents(layout)) + if layout.noConfig then [] else ConfigKnobs(disk, layout)
  }

  function Cap(knobs: seq<Knob>): seq<Knob> {
    if |knobs| > MAX_KNOBS then knobs[..MAX_KNOBS] else knobs
  }

  /** The mutable surface of a project as its files stand. */
  function Reflect(disk: Files, layout: Layout): seq<Knob> {
    Cap(SortByID(Found(disk, layout)))
  }

  lemma Append(a: seq<Knob>, b: seq<Knob>, c: seq<Knob>)
    ensures a + (b + c) == (a + b) + c
  {
  }

  // ---- lookups ------------------------------------------------------------

  /** byID: the last knob carrying an id. */
  function Lookup(knobs: seq<Knob>, id: string): (i: Option<nat>)
    ensures i.Some? ==> i.value < |knobs| && knobs[i.value].id == id
                        && forall j :: i.value < j < |knobs| ==> knobs[j].id != id
    ensures i.None? ==> forall j :: 0 <= j < |knobs| ==> knobs[j].id != id
  {
    if knobs == [] then None
    else if knobs[|knobs| - 1].id == id then Some(|knobs| - 1)
    else Lookup(knobs[..|knobs| - 1], id)
  }

  /** Replacing a knob by one with the same id leaves every lookup where it was. */
  lemma {:induction false} LookupUpdate(knobs: seq<Knob>, i: nat, k: Knob, id: string)
    requires i < |knobs| && k.id == knobs[i].id
    ensures Lookup(knobs[i := k], id) == Lookup(knobs, id)
  {
    if i < |knobs| - 1 && knobs[|knobs| - 1].id != id {
      assert knobs[i := k][..|knobs| - 1] == knobs[..|knobs| - 1][i := k];
      LookupUpdate(knobs[..|knobs| - 1], i, k, id);
    } else if i == |knobs| - 1 {
      assert knobs[i := k][..|knobs| - 1] == knobs[..|knobs| - 1];
    }
  }

  function CurrentValue(knobs: seq<Knob>, id: string): string {
    var i := Lookup(knobs, id);
    if i.Some? then knobs[i.value].value else ""
  }

  predicate MayWrite(k: Knob) {
    match k.source
    case Agent => IsAgentField(k.field)
    case Config => IsWhitelisted(k.field)
  }

  // ---- Apply and SetValue -------------------------------------------------

  datatype ApplyResult =
    | Refused(error: string)
    | Written(knobs: seq<Knob>, disk: Files)

  /** The document after one knob moved to one value. */
  function EditFor(root: seq<Entry>, k: Knob, value: string): seq<Entry> {
    Edit(root, k.source == Agent, k.field, ScalarNode(value, k.domain.kind))
  }

  /** Why Apply refuses a change to this knob: every guard is checked before the write, and the
      write itself may fail. */
  function Refusal(k: Knob, disk: Files, c: Change, writeError: Option<string>): (r: Option<string>)
    ensures r.None? ==> MayWrite(k) && Load(disk, k.file).Some? && k.domain.Allows(k.domain.Normalize(c.after))
  {
    if !MayWrite(k) then Some("field is not whitelisted: " + k.field)
    else if !k.domain.Allows(k.domain.Normalize(c.after)) then Some("outside the domain: " + c.after)
    else if Load(disk, k.file).None? then Some("parse error: " + k.field)
    else if writeError.Some? then Some("write: " + writeError.value)
    else None
  }

  /** The surface in memory after a change to its knob i. */
  function AppliedKnobs(knobs: seq<Knob>, i: nat, c: Change): seq<Knob>
    requires i < |knobs|
  {
    knobs[i := knobs[i].(value := knobs[i].domain.Normalize(c.after), inFile := true)]
  }

  function Apply(knobs: seq<Knob>, disk: Files, c: Change, writeError: Option<string>): ApplyResult {
    var at := Lookup(knobs, c.knobID);
    if at.None? then Refused("knob is not on the mutable surface: " + c.knobID)
    else
      var k := knobs[at.value];
      var refusal := Refusal(k, disk, c, writeError);
      if refusal.Some? then Refused(refusal.value)
      else
        var edited := EditFor(Load(disk, k.file).value, k, k.domain.Normalize(c.after));
        Written(AppliedKnobs(knobs, at.value, c), disk[k.file := Document(edited)])
  }

  function SetValue(knobs: seq<Knob>, id: string, value: string): seq<Knob> {
    var at := Lookup(knobs, id);
    if at.None? then knobs else knobs[at.value := knobs[at.value].(value := value)]
  }

  /** Every file the surface can write. */
  function FileSet(knobs: seq<Knob>): set<Path> { set k | k in knobs :: k.file }

  // ---- agreement of surface and disk --------------------------------------

  function Map(f: Knob -> Knob, knobs: seq<Knob>): (r: seq<Knob>)
    ensures |r| == |knobs|
    ensures forall i :: 0 <= i < |knobs| ==> r[i] == f(knobs[i])
  {
    if knobs == [] then [] else [f(knobs[0])] + Map(f, knobs[1..])
  }

  /** InFile is provenance, not state: agreement ignores it. */
  function Forget(k: Knob): Knob { k.(inFile := false) }

  function Values(knobs: seq<Knob>): seq<Knob> { Map(Forget, knobs) }

  /** Reflecting the disk again would show exactly the values held in memory. */
  ghost predicate Agrees(layout: Layout, disk: Files, knobs: seq<Knob>) {
    Values(Reflect(disk, layout)) == Values(knobs)
  }

  /** One file is one place: no path is listed twice, and the config is not an agent file. */
  ghost predicate Separate(layout: Layout) {
    && (forall i, j :: 0 <= i < j < |layout.agents| ==> layout.agents[i].path != layout.agents[j].path)
    && (forall i :: 0 <= i < |layout.agents| ==> layout.agents[i].path != layout.config)
    && (forall i :: 0 <= i < |layout.agents| ==> layout.agents[i].path.Project?)
    && layout.config.Project?
  }
}
