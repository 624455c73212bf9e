/** Two agent files of one id: a project on which the deterministic proposer loses agreement. */
module RatchetTwins {
  import opened Text
  import opened Decimal
  import opened Whitelist
  import opened YamlEdit
  import opened Disk
  import opened Surface
  import opened Seeds
  import opened Ratchet
  import opened RatchetSweep
  import opened RatchetRuns
  import opened RatchetSentences
  import opened RatchetAligned
  import opened RatchetCollide

  function TwinFile(turns: string): Content {
    Document([Entry("id", Scalar("!!str", "coder", PlainStyle)), Entry("max_iter", Scalar("!!int", turns, PlainStyle))])
  }

  function Twins(): Files { map[Project("a.yaml") := TwinFile("5"), Project("b.yaml") := TwinFile("7")] }

  function TwinLayout(): Layout {
    Layout([AgentFile(Project("a.yaml"), "a"), AgentFile(Project("b.yaml"), "b")], Project("config.json"), map[], 0,
           false, true)
  }

  /** A file of agent coder that sets its turns and no other field. */
  ghost predicate SetsTurns(root: seq<Entry>, turns: string) {
    && Target(root, true) == root && ScalarString(root, "id") == Some("coder")
    && ScalarString(root, "max_iter") == Some(turns) && ScalarString(root, "temperature").None?
    && ScalarString(root, "max_tokens").None? && ScalarString(root, "system_prompt").None?
  }

  lemma TwinRead(turns: string)
    ensures SetsTurns(TwinFile(turns).root, turns)
  {
    var spec := TwinFile(turns).root;
    assert spec[0].key == "id" && spec[1].key == "max_iter" && |spec| == 2;
    assert MapIndex(spec, "spec") < 0 && MapIndex(spec, "id") == 0 && MapIndex(spec, "max_iter") == 1;
  }

  lemma CoderID(spec: seq<Entry>, stem: string)
    requires ScalarString(spec, "id") == Some("coder")
    ensures AgentID(spec, stem) == "coder"
  {
    PlainKeyLookup("coder");
    TrimIsTrimmed("coder");
  }

  /** Only one of the fields is there. */
  lemma {:induction false} OnlyField(spec: seq<Entry>, path: Path, id: string, fields: seq<Field>, m: nat)
    requires m < |fields|
    requires forall j :: 0 <= j < |fields| && j != m ==> ScalarString(spec, fields[j].key).None?
    ensures FieldKnobs(spec, path, id, fields) == FieldKnob(spec, path, id, fields[m])
  {
    if m > 0 {
      OnlyField(spec, path, id, fields[1..], m - 1);
    } else {
      NoFields(spec, path, id, fields[1..]);
    }
  }

  lemma {:induction false} NoFields(spec: seq<Entry>, path: Path, id: string, fields: seq<Field>)
    requires forall j :: 0 <= j < |fields| ==> ScalarString(spec, fields[j].key).None?
    ensures FieldKnobs(spec, path, id, fields) == []
  {
    if fields != [] {
      assert FieldKnob(spec, path, id, fields[0]) == [];
      NoFields(spec, path, id, fields[1..]);
    }
  }

  function TurnsKnob(path: Path, turns: string): Knob {
    var f := Ints("max_iter", 1, 24, 1);
    Knob("agent:" + "coder" + "." + f.key, Agent, "coder", f.key, path, f.domain.Normalize(turns), f.domain, true)
  }

  lemma TurnsFields(spec: seq<Entry>, path: Path, turns: string)
    requires SetsTurns(spec, turns)
    ensures FieldKnobs(spec, path, "coder", AgentFields()) == [TurnsKnob(path, turns)]
  {
    var fields := AgentFields();
    assert fields[2] == Ints("max_iter", 1, 24, 1);
    assert fields[0].key == "temperature" && fields[1].key == "max_tokens" && fields[3].key == "system_prompt";
    OnlyField(spec, path, "coder", fields, 2);
  }

  lemma TurnsFile(disk: Files, af: AgentFile, root: seq<Entry>, turns: string)
    requires Load(disk, af.path) == Some(root) && SetsTurns(root, turns)
    ensures FileKnobs(disk, af) == [TurnsKnob(af.path, turns)]
  {
    CoderID(root, af.stem);
    TurnsFields(root, af.path, turns);
  }

  lemma TwoAgents(disk: Files, layout: Layout, a: Knob, b: Knob)
    requires |layout.agents| == 2 && !layout.noAgents && layout.noConfig && a.id == b.id
    requires FileKnobs(disk, layout.agents[0]) == [a] && FileKnobs(disk, layout.agents[1]) == [b]
    ensures Reflect(disk, layout) == [a, b]
  {
    var files := layout.agents;
    assert FirstAgents(layout) == files && files[1..][1..] == [] && files[1..][0] == files[1];
    assert AgentKnobs(disk, files[1..]) == [b];
    assert AgentKnobs(disk, files) == [a] + [b];
    SortTwo(a, b);
    assert Found(disk, layout) == [a, b];
  }

  lemma SortTwo(a: Knob, b: Knob)
    requires a.id == b.id
    ensures SortByID([a, b]) == [a, b]
  {
    LessTotal(a.id, a.id);
    assert SortByID([b]) == [b];
    assert [a, b][1..] == [b];
  }

  lemma TurnsNormal(n: nat)
    ensures Ints("max_iter", 1, 24, 1).domain.Normalize(Itoa(n)) == Itoa(n)
  {
    ParseItoa(n);
    TrimIsTrimmed(Itoa(n));
  }

  /** Two files that name one agent give two knobs of one id; nothing refuses the second. */
  lemma TwoFilesReflect(disk: Files, layout: Layout, x: string, y: string)
    requires |layout.agents| == 2 && !layout.noAgents && layout.noConfig
    requires Load(disk, layout.agents[0].path).Some? && SetsTurns(Load(disk, layout.agents[0].path).value, x)
    requires Load(disk, layout.agents[1].path).Some? && SetsTurns(Load(disk, layout.agents[1].path).value, y)
    ensures Reflect(disk, layout) == [TurnsKnob(layout.agents[0].path, x), TurnsKnob(layout.agents[1].path, y)]
  {
    var a, b := layout.agents[0], layout.agents[1];
    TurnsFile(disk, a, Load(disk, a.path).value, x);
    TurnsFile(disk, b, Load(disk, b.path).value, y);
    TwoAgents(disk, layout, TurnsKnob(a.path, x), TurnsKnob(b.path, y));
  }

  lemma TwinsLoad()
    ensures Load(Twins(), Project("a.yaml")) == Some(TwinFile("5").root)
    ensures Load(Twins(), Project("b.yaml")) == Some(TwinFile("7").root)
  {
    assert "a.yaml"[0] != "b.yaml"[0];
  }

  lemma TwinsSeparate()
    ensures Separate(TwinLayout())
  {
    assert "a.yaml"[0] != "b.yaml"[0];
  }

  lemma TwinsReflect()
    ensures Reflect(Twins(), TwinLayout()) == [TurnsKnob(Project("a.yaml"), "5"), TurnsKnob(Project("b.yaml"), "7")]
  {
    TwinsLoad();
    TwinRead("5");
    TwinRead("7");
    TwoFilesReflect(Twins(), TwinLayout(), "5", "7");
  }

  /** The first of two knobs of one id, when they hold different values. */
  lemma FirstOfTwoStale(a: Knob, b: Knob)
    requires a.id == b.id && Enumerable(a) && a.value != b.value
    ensures Stale([a, b], 0)
  {
    assert Lookup([a, b], a.id) == Some(1);
  }

  lemma TwinsStale()
    ensures Stale([TurnsKnob(Project("a.yaml"), "5"), TurnsKnob(Project("b.yaml"), "7")], 0)
  {
    var a, b := TurnsKnob(Project("a.yaml"), "5"), TurnsKnob(Project("b.yaml"), "7");
    TurnsNormal(5);
    TurnsNormal(7);
    assert Itoa(5) == "5" && Itoa(7) == "7";
    GridsRoomy();
    FirstOfTwoStale(a, b);
  }

  /** On this project one failed experiment leaves the surface showing what no file holds. */
  lemma TwinsDisagree() returns (env: Env, sts: seq<RunState>)
    ensures Favouring(0).Valid() && ProposesDet(env, Favouring(0))
    ensures Execution(DefaultOptions(), env, PrimaryOnly(0.0), Opened(TwinLayout(), Twins()), sts)
    ensures !Agrees(TwinLayout(), sts[|sts| - 1].disk, sts[|sts| - 1].knobs)
  {
    TwinsSeparate();
    TwinsReflect();
    TwinsStale();
    env, sts := StaleDetBreaks(TwinLayout(), Twins(), 0);
  }
}
