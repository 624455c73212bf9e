/** pkg/autoresearch/yamledit.go: surgical edits of a YAML mapping.
    A document is its tree of nodes; encoding and parsing are taken as inverse. */
module YamlEdit {
  import opened Text
  import opened Domains

  datatype Style = PlainStyle | LiteralStyle

  /** Nodes the package never looks inside (lists, aliases) are Unread. */
  datatype Node =
    | Scalar(tag: string, value: string, style: Style)
    | Mapping(entries: seq<Entry>)
    | Unread(text: string)

  datatype Entry = Entry(key: string, node: Node)

  /** The index of the first entry named key, or -1. */
  function MapIndex(m: seq<Entry>, key: string): (i: int)
    ensures -1 <= i < |m|
    ensures i >= 0 ==> m[i].key == key
    ensures forall k :: 0 <= k < (if i < 0 then |m| else i) ==> m[k].key != key
  {
    if m == [] then -1
    else if m[0].key == key then 0
    else
      var i := MapIndex(m[1..], key);
      if i < 0 then -1 else i + 1
  }

  function MapValue(m: seq<Entry>, key: string): Option<Node> {
    var i := MapIndex(m, key);
    if i < 0 then None else Some(m[i].node)
  }

  function ScalarString(m: seq<Entry>, key: string): Option<string> {
    var v := MapValue(m, key);
    if v.Some? && v.value.Scalar? then Some(v.value.value) else None
  }

  function ScalarNode(value: string, kind: Kind): Node {
    match kind
    case KnobInt => Scalar("!!int", value, PlainStyle)
    case KnobFloat => Scalar("!!float", value, PlainStyle)
    case KnobBool => Scalar("!!bool", value, PlainStyle)
    case _ => Scalar("!!str", value, if '\n' in value then LiteralStyle else PlainStyle)
  }

  /** setScalar on a mapping: replace the first value, or append the key. */
  function Put(m: seq<Entry>, key: string, node: Node): seq<Entry> {
    var i := MapIndex(m, key);
    if i < 0 then m + [Entry(key, node)] else m[i := Entry(key, node)]
  }

  /** Whether the agent fields are nested under spec:. */
  predicate HasSpec(root: seq<Entry>) {
    var v := MapValue(root, "spec");
    v.Some? && v.value.Mapping?
  }

  /** The mapping an edit addresses: doc.spec() for agents, doc.root() for config. */
  function Target(root: seq<Entry>, nested: bool): seq<Entry> {
    if nested && HasSpec(root) then MapValue(root, "spec").value.entries else root
  }

  function Edit(root: seq<Entry>, nested: bool, key: string, node: Node): seq<Entry> {
    if nested && HasSpec(root)
    then Put(root, "spec", Mapping(Put(Target(root, true), key, node)))
    else Put(root, key, node)
  }

  /** An agent file is read under its first spec key if that holds a mapping, and at its root otherwise; the
      config file always at its root. */
  lemma TargetIs(root: seq<Entry>)
    ensures var spec := MapValue(root, "spec");
            && (spec.Some? && spec.value.Mapping? ==> Target(root, true) == spec.value.entries)
            && (spec.None? || !spec.value.Mapping? ==> Target(root, true) == root)
            && Target(root, false) == root
  {
  }

  // ---- the loops of the source -------------------------------------------

  method FindKey(m: seq<Entry>, key: string) returns (i: int)
    ensures i == MapIndex(m, key)
  {
    i := 0;
    while i < |m|
      invariant 0 <= i <= |m|
      invariant forall k :: 0 <= k < i ==> m[k].key != key
    {
      if m[i].key == key {
        return;
      }
      i := i + 1;
    }
    i := -1;
  }

  /** A loaded document: its nodes are edited where they stand. */
  class YamlDoc {
    var root: seq<Entry>

    constructor (root: seq<Entry>)
      ensures this.root == root
    {
      this.root := root;
    }

    method SetScalar(nested: bool, key: string, value: string, kind: Kind)
      modifies this
      ensures root == Edit(old(root), nested, key, ScalarNode(value, kind))
    {
      var next := ScalarNode(value, kind);
      if nested && HasSpec(root) {
        var at := FindKey(root, "spec");
        var inner := root[at].node.entries;
        var i := FindKey(inner, key);
        inner := if i < 0 then inner + [Entry(key, next)] else inner[i := Entry(key, next)];
        root := root[at := Entry("spec", Mapping(inner))];
      } else {
        var i := FindKey(root, key);
        root := if i < 0 then root + [Entry(key, next)] else root[i := Entry(key, next)];
      }
    }
  }

  // ---- get/put laws -------------------------------------------------------

  /** The index is determined by being first. */
  lemma FirstIndex(m: seq<Entry>, key: string, i: nat)
    requires i < |m| && m[i].key == key && forall k :: 0 <= k < i ==> m[k].key != key
    ensures MapIndex(m, key) == i
  {
  }

  lemma NoIndex(m: seq<Entry>, key: string)
    requires forall k :: 0 <= k < |m| ==> m[k].key != key
    ensures MapIndex(m, key) == -1
  {
  }

  /** What was put is what is read back. */
  lemma PutGet(m: seq<Entry>, key: string, node: Node)
    ensures MapValue(Put(m, key, node), key) == Some(node)
    ensures MapIndex(Put(m, key, node), key) == if MapIndex(m, key) < 0 then |m| else MapIndex(m, key)
  {
    var i := MapIndex(m, key);
    FirstIndex(Put(m, key, node), key, if i < 0 then |m| else i);
  }

  /** Every other key reads as before. */
  lemma PutOther(m: seq<Entry>, key: string, node: Node, other: string)
    requires other != key
    ensures MapValue(Put(m, key, node), other) == MapValue(m, other)
  {
    var m' := Put(m, key, node);
    var j := MapIndex(m, other);
    if j < 0 {
      NoIndex(m', other);
    } else {
      FirstIndex(m', other, j);
    }
  }

  /** A later put to the same key makes an earlier one invisible; putting back the value
      already there changes nothing. */
  lemma PutPut(m: seq<Entry>, key: string, a: Node, b: Node)
    ensures Put(Put(m, key, a), key, b) == Put(m, key, b)
    ensures MapValue(m, key) == Some(a) ==> Put(m, key, a) == m
  {
    PutGet(m, key, a);
  }

  /** es' arises from es by rewriting or appending entries whose keys are in `keys`;
      every other entry keeps its value and its place. */
  ghost predicate EditedWithin(es: seq<Entry>, es': seq<Entry>, keys: set<string>) {
    && |es| <= |es'|
    && (forall i :: 0 <= i < |es| ==> es'[i].key == es[i].key)
    && (forall i :: 0 <= i < |es| && es[i].key !in keys ==> es'[i] == es[i])
    && (forall i :: |es| <= i < |es'| ==> es'[i].key in keys)
  }

  lemma EditedWithinTransitive(a: seq<Entry>, b: seq<Entry>, c: seq<Entry>, keys: set<string>)
    requires EditedWithin(a, b, keys) && EditedWithin(b, c, keys)
    ensures EditedWithin(a, c, keys)
  {
  }

  lemma PutEditsWithin(m: seq<Entry>, key: string, node: Node, keys: set<string>)
    requires key in keys
    ensures EditedWithin(m, Put(m, key, node), keys)
  {
  }

  /** A key outside `keys` reads the same in an edited mapping. */
  lemma EditedWithinReads(es: seq<Entry>, es': seq<Entry>, keys: set<string>, key: string)
    requires EditedWithin(es, es', keys) && key !in keys
    ensures MapValue(es', key) == MapValue(es, key)
  {
    var j := MapIndex(es, key);
    if j < 0 {
      NoIndex(es', key);
    } else {
      FirstIndex(es', key, j);
    }
  }

  /** An edit never changes which mapping the next edit will address, and it is exactly a
      put on that mapping. */
  lemma EditTarget(root: seq<Entry>, nested: bool, key: string, node: Node)
    requires nested ==> key != "spec"
    ensures var root' := Edit(root, nested, key, node);
            && (nested ==> HasSpec(root') == HasSpec(root))
            && Target(root', nested) == Put(Target(root, nested), key, node)
  {
    if nested {
      if HasSpec(root) {
        PutGet(root, "spec", Mapping(Put(Target(root, true), key, node)));
      } else {
        PutOther(root, key, node, "spec");
      }
    }
  }

  /** The whole document changed only inside `keys` of the addressed mapping. */
  ghost predicate RootEditedWithin(root: seq<Entry>, root': seq<Entry>, nested: bool, keys: set<string>) {
    if nested && HasSpec(root) then
      && HasSpec(root')
      && root' == Put(root, "spec", MapValue(root', "spec").value)
      && EditedWithin(Target(root, true), Target(root', true), keys)
    else (nested ==> !HasSpec(root')) && EditedWithin(root, root', keys)
  }

  lemma EditStaysWithin(root: seq<Entry>, nested: bool, key: string, node: Node, keys: set<string>)
    requires key in keys && (nested ==> "spec" !in keys)
    ensures RootEditedWithin(root, Edit(root, nested, key, node), nested, keys)
  {
    EditTarget(root, nested, key, node);
    PutEditsWithin(Target(root, nested), key, node, keys);
    if nested && HasSpec(root) {
      PutGet(root, "spec", Mapping(Put(Target(root, true), key, node)));
    }
  }

  lemma RootEditedWithinTransitive(a: seq<Entry>, b: seq<Entry>, c: seq<Entry>, nested: bool, keys: set<string>)
    requires RootEditedWithin(a, b, nested, keys) && RootEditedWithin(b, c, nested, keys)
    ensures RootEditedWithin(a, c, nested, keys)
  {
    EditedWithinTransitive(Target(a, nested), Target(b, nested), Target(c, nested), keys);
    if nested && HasSpec(a) {
      PutPut(a, "spec", MapValue(b, "spec").value, MapValue(c, "spec").value);
    }
  }
}
