/** What Reflect guarantees about every surface: ids end in their field, so knobs that share an id
    share a domain, and every domain is coherent. */
module Regularity {
  import opened Domains
  import opened Whitelist
  import opened YamlEdit
  import opened Disk
  import opened Surface
  import opened Agreement
  import opened RatchetSweep

  /** The id is spelled from source, owner and field. */
  predicate Named(k: Knob) {
    k.id == if k.source == Agent then "agent:" + k.owner + "." + k.field else "config:" + k.field
  }

  ghost predicate AllNamed(knobs: seq<Knob>) {
    forall k :: k in knobs ==> Named(k)
  }

  lemma {:induction false} FieldKnobsNamed(spec: seq<Entry>, path: Path, id: string, fields: seq<Field>)
    ensures AllNamed(FieldKnobs(spec, path, id, fields))
  {
    if fields != [] {
      FieldKnobsNamed(spec, path, id, fields[1..]);
    }
  }

  lemma FileKnobsNamed(disk: Files, af: AgentFile)
    ensures AllNamed(FileKnobs(disk, af))
  {
    var doc := Load(disk, af.path);
    if doc.Some? {
      var spec := Target(doc.value, true);
      FieldKnobsNamed(spec, af.path, AgentID(spec, af.stem), AgentFields());
    }
  }

  lemma {:induction false} AgentKnobsNamed(disk: Files, files: seq<AgentFile>)
    ensures AllNamed(AgentKnobs(disk, files))
  {
    if files != [] {
      FileKnobsNamed(disk, files[0]);
      AgentKnobsNamed(disk, files[1..]);
    }
  }

  lemma {:induction false} KeyKnobsNamed(root: seq<Entry>, layout: Layout, fields: seq<Field>)
    ensures AllNamed(KeyKnobs(root, layout, fields))
  {
    if fields != [] {
      KeyKnobsNamed(root, layout, fields[1..]);
    }
  }

  lemma ReflectNamed(disk: Files, layout: Layout, k: Knob)
    requires k in Reflect(disk, layout)
    ensures Named(k)
  {
    ReflectedWereFound(disk, layout, k);
    AgentKnobsNamed(disk, FirstAgents(layout));
    if !layout.noConfig && Load(disk, layout.config).Some? {
      KeyKnobsNamed(Load(disk, layout.config).value, layout, ConfigFields());
    }
  }

  predicate NoDot(s: string) { forall i :: 0 <= i < |s| ==> s[i] != '.' }

  /** What stands after the last dot is determined. */
  lemma AfterLastDot(x: string, f: string, y: string, g: string)
    requires NoDot(f) && NoDot(g) && x + "." + f == y + "." + g
    ensures f == g
  {
    var s := x + "." + f;
    assert s[|x|] == '.' && s[|y|] == '.';
    assert forall i :: |x| < i < |s| ==> s[i] == f[i - |x| - 1];
    assert forall i :: |y| < i < |s| ==> s[i] == g[i - |y| - 1];
    assert s[|x| + 1..] == f && s[|y| + 1..] == g;
  }

  lemma AgentKeysPlain(key: string)
    requires exists f :: f in AgentFields() && f.key == key
    ensures NoDot(key)
  {
    var f :| f in AgentFields() && f.key == key;
    assert f.key in {"temperature", "max_tokens", "max_iter", "system_prompt"};
  }

  lemma SameIDSameField(a: Knob, b: Knob)
    requires Named(a) && Named(b) && a.id == b.id
    requires a.source == Agent ==> NoDot(a.field)
    requires b.source == Agent ==> NoDot(b.field)
    ensures a.source == b.source && a.field == b.field
  {
    assert a.id[0] == if a.source == Agent then 'a' else 'c';
    assert b.id[0] == if b.source == Agent then 'a' else 'c';
    if a.source == Agent {
      AfterLastDot("agent:" + a.owner, a.field, "agent:" + b.owner, b.field);
    } else {
      assert a.id[7..] == a.field && b.id[7..] == b.field;
    }
  }

  lemma SameFieldSameDomain(disk: Files, layout: Layout, a: Knob, b: Knob)
    requires Sound(disk, layout, a) && Sound(disk, layout, b) && a.source == b.source && a.field == b.field
    ensures a.domain == b.domain
  {
    match a.source {
      case Agent =>
        var f :| f in AgentFields() && f.key == a.field && f.domain == a.domain;
        var g :| g in AgentFields() && g.key == b.field && g.domain == b.domain;
        AgentFieldUnique(f, g);
      case Config =>
        var f :| f in ConfigFields() && f.key == a.field && ScaleDomain(f.key, f.domain, layout.window) == a.domain;
        var g :| g in ConfigFields() && g.key == b.field && ScaleDomain(g.key, g.domain, layout.window) == b.domain;
        ConfigFieldUnique(f, g);
    }
  }

  lemma SoundIsPlain(disk: Files, layout: Layout, k: Knob)
    requires Sound(disk, layout, k)
    ensures k.source == Agent ==> NoDot(k.field)
  {
    if k.source == Agent {
      AgentKeysPlain(k.field);
    }
  }

  /** Every reflected surface is regular, even when two agent files carry the same id. */
  lemma ReflectRegular(disk: Files, layout: Layout)
    ensures Regular(Reflect(disk, layout))
  {
    var knobs := Reflect(disk, layout);
    forall k | k in knobs ensures WellGridded(k.domain) {
      ReflectSound(disk, layout, k);
      SoundMayWrite(disk, layout, k);
    }
    forall i, j | 0 <= i < |knobs| && 0 <= j < |knobs| && knobs[i].id == knobs[j].id
      ensures knobs[i].domain == knobs[j].domain
    {
      ReflectedPair(disk, layout, knobs[i], knobs[j]);
    }
  }

  lemma ReflectedPair(disk: Files, layout: Layout, a: Knob, b: Knob)
    requires a in Reflect(disk, layout) && b in Reflect(disk, layout) && a.id == b.id
    ensures a.domain == b.domain
  {
    ReflectNamed(disk, layout, a);
    ReflectNamed(disk, layout, b);
    ReflectSound(disk, layout, a);
    ReflectSound(disk, layout, b);
    SoundIsPlain(disk, layout, a);
    SoundIsPlain(disk, layout, b);
    SameIDSameField(a, b);
    SameFieldSameDomain(disk, layout, a, b);
  }

  /** A surface that agrees with its disk has the reflected surface's shape, so it is regular. */
  lemma AgreeingRegular(disk: Files, layout: Layout, knobs: seq<Knob>)
    requires Agrees(layout, disk, knobs)
    ensures Regular(knobs)
  {
    var r := Reflect(disk, layout);
    ReflectRegular(disk, layout);
    assert |Values(r)| == |r| && |Values(knobs)| == |knobs|;
    forall j | 0 <= j < |r| ensures r[j].id == knobs[j].id && r[j].domain == knobs[j].domain {
      assert Values(r)[j] == Forget(r[j]) && Values(knobs)[j] == Forget(knobs[j]);
      assert Forget(r[j]).id == Forget(knobs[j]).id && Forget(r[j]).domain == Forget(knobs[j]).domain;
    }
  }
}
