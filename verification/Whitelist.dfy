/** pkg/autoresearch/whitelist.go: the complete set of fields an experiment may move. */
module Whitelist {
  import opened Text
  import opened Domains

  datatype Field = Field(key: string, domain: Domain)

  function Ints(key: string, min: int, max: int, step: int): Field {
    Field(key, Domain(KnobInt, min * UNIT, max * UNIT, step * UNIT, [], 0))
  }

  function Floats(key: string, min: int, max: int, step: int): Field {
    Field(key, Domain(KnobFloat, min, max, step, [], 0))
  }

  function Words(key: string, kind: Kind, values: seq<string>): Field {
    Field(key, Domain(kind, 0, 0, 0, values, 0))
  }

  /** agentFields, in surface order. */
  function AgentFields(): seq<Field> {
    [ Floats("temperature", 0, 1_000_000, 50_000),
      Ints("max_tokens", 512, 8192, 512),
      Ints("max_iter", 1, 24, 1),
      Field("system_prompt", Domain(KnobText, 0, 0, 0, [], MAX_PROMPT_LEN)) ]
  }

  /** configWhitelist, in surface order. */
  function ConfigFields(): seq<Field> {
    [ Ints("context_slack_percent", 5, 25, 5),
      Ints("excerpt_window_lines", 5, 60, 5),
      Ints("max_retries", 0, 6, 1),
      Ints("max_task_calls", 4, 16, 2),
      Ints("max_tokens", 1024, 8192, 512),
      Ints("memory_tokens", 100, 800, 50),
      Ints("react_compact_at_percent", 50, 95, 5),
      Ints("repo_map_tokens", 0, 2000, 100),
      Words("skill_disclosure", KnobEnum, ["auto", "cards", "full"]),
      Ints("skill_max_expanded", 0, 4, 1),
      Words("structured_decoding", KnobEnum, ["auto", "off"]),
      Floats("temperature", 0, 1_000_000, 50_000),
      Ints("think_passes", 1, 3, 1),
      Words("worker_critique", KnobBool, ["false", "true"]) ]
  }

  predicate Names(fields: seq<Field>, key: string) {
    exists i :: 0 <= i < |fields| && fields[i].key == key
  }

  predicate IsAgentField(name: string) { Names(AgentFields(), ToLower(Trim(name))) }

  predicate IsWhitelisted(key: string) { Names(ConfigFields(), ToLower(Trim(key))) }

  /** Config keys that must never become mutable. */
  const SENSITIVE: set<string> := {
    "api_key", "embedding_api_key", "provider", "endpoint", "embedding_endpoint", "model",
    "fast_model", "backend", "claude_code_bin", "permission", "shell_permission",
    "shell_whitelist", "shell_allow", "hooks_enabled", "mcp_servers", "skills_dirs",
    "retrieval_cache_dir", "listen", "auto_approve", "dry_run", "write_guard",
    "read_before_edit", "shell_write_guard"
  }

  /** The whitelisted config keys, without their domains. */
  const CONFIG_KEYS: set<string> := {
    "context_slack_percent", "excerpt_window_lines", "max_retries", "max_task_calls", "max_tokens",
    "memory_tokens", "react_compact_at_percent", "repo_map_tokens", "skill_disclosure",
    "skill_max_expanded", "structured_decoding", "temperature", "think_passes", "worker_critique"
  }

  lemma NamedKeys(key: string)
    requires Names(ConfigFields(), key)
    ensures key in CONFIG_KEYS
  {
  }

  /** Tells every sensitive key from every whitelisted one: the length, second and last letter. */
  predicate LooksTunable(s: string) {
    |s| > 1 &&
    var a, z := s[1], s[|s| - 1];
    match |s|
    case 10 => z == 's'
    case 11 => a == 'a' || a == 'e'
    case 12 => a == 'h'
    case 13 => a == 'e'
    case 14 => true
    case 15 => a == 'e' || a == 'o'
    case 16 => a == 'k'
    case 18 => a == 'k'
    case 19 => a == 't'
    case 20 => true
    case 21 => true
    case 24 => true
    case _ => false
  }

  lemma TunableLook(key: string)
    requires key in CONFIG_KEYS
    ensures LooksTunable(key)
  {
  }

  lemma SensitiveLook(key: string)
    requires key in SENSITIVE
    ensures !LooksTunable(key)
  {
  }

  /** No sensitive key is mutable, in any casing or padding. */
  lemma SensitiveExcluded(key: string)
    requires ToLower(Trim(key)) in SENSITIVE
    ensures !IsWhitelisted(key)
  {
    var k := ToLower(Trim(key));
    SensitiveLook(k);
    if Names(ConfigFields(), k) {
      NamedKeys(k);
      TunableLook(k);
    }
  }

  /** Already lower case and trimmed, so looking a key up finds itself. */
  predicate PlainKey(s: string) {
    s != "" && forall i :: 0 <= i < |s| ==> 'a' <= s[i] <= 'z' || s[i] == '_'
  }

  lemma PlainKeyLookup(s: string)
    requires PlainKey(s)
    ensures ToLower(Trim(s)) == s
  {
    TrimIsTrimmed(s);
  }

  lemma LongKeysPlain(key: string)
    requires key in {"context_slack_percent", "excerpt_window_lines", "react_compact_at_percent"}
    ensures PlainKey(key)
  {
  }

  lemma MaxKeysPlain(key: string)
    requires key in {"max_retries", "max_task_calls", "max_tokens", "memory_tokens"}
    ensures PlainKey(key)
  {
  }

  lemma SkillKeysPlain(key: string)
    requires key in {"repo_map_tokens", "skill_disclosure", "skill_max_expanded"}
    ensures PlainKey(key)
  {
  }

  lemma RestKeysPlain(key: string)
    requires key in {"structured_decoding", "temperature", "think_passes", "worker_critique"}
    ensures PlainKey(key)
  {
  }

  lemma ConfigKeysPlain(key: string)
    requires key in CONFIG_KEYS
    ensures PlainKey(key)
  {
    if key in {"context_slack_percent", "excerpt_window_lines", "react_compact_at_percent"} {
      LongKeysPlain(key);
    } else if key in {"max_retries", "max_task_calls", "max_tokens", "memory_tokens"} {
      MaxKeysPlain(key);
    } else if key in {"repo_map_tokens", "skill_disclosure", "skill_max_expanded"} {
      SkillKeysPlain(key);
    } else {
      RestKeysPlain(key);
    }
  }

  lemma AgentKeysPlain(f: Field)
    requires f in AgentFields()
    ensures PlainKey(f.key) && f.key != "id" && f.key != "spec"
  {
  }

  /** The shape every shipped numeric domain has. */
  predicate WholeGrid(d: Domain) {
    && d.kind == KnobInt && d.min % UNIT == 0 && d.step % UNIT == 0 && d.step > 0
    && 0 <= d.min && 0 <= d.max <= 8192 * UNIT
  }

  lemma WholeGridScales(d: Domain, m: int)
    requires WholeGrid(d) && 1 <= m <= MAX_DOMAIN_SCALE
    ensures WellGridded(d) && WellGridded(d.(max := d.max * m, step := d.step * m))
  {
    assert d.max * m <= 8192 * UNIT * 4;
    GridWhole(0, d.step, m);
    assert m * d.step > 0;
  }

  /** The shape of the two temperatures: a share between 0 and 1. */
  predicate ShareGrid(d: Domain) { d.kind == KnobFloat && 0 <= d.min && d.max <= UNIT }

  lemma AgentDomains(f: Field)
    requires f in AgentFields()
    ensures WholeGrid(f.domain) || ShareGrid(f.domain) || f.domain.kind == KnobText
  {
  }

  /** Every shipped agent field passes its own re-check and has a coherent domain. */
  lemma AgentFieldShipped(f: Field)
    requires f in AgentFields()
    ensures IsAgentField(f.key) && WellGridded(f.domain)
    ensures f.key != "id" && f.key != "spec"
  {
    AgentKeysPlain(f);
    PlainKeyLookup(f.key);
    NamesMember(AgentFields(), f);
    AgentDomains(f);
    if f.domain.kind == KnobInt {
      WholeGridScales(f.domain, 1);
    }
  }

  lemma NamesMember(fields: seq<Field>, f: Field)
    requires f in fields
    ensures Names(fields, f.key)
  {
    var i :| 0 <= i < |fields| && fields[i] == f;
    assert fields[i].key == f.key;
  }

  lemma EnumWord(d: Domain, word: string)
    requires d.kind == KnobEnum && PlainKey(word)
    ensures d.Normalize(word) == word
  {
    PlainKeyLookup(word);
  }

  lemma ModesDiffer()
    ensures "auto" != "cards" && "auto" != "full" && "cards" != "full" && "auto" != "off"
  {
    assert |"auto"| == 4 && |"cards"| == 5 && |"off"| == 3 && "full"[0] == 'f' && "auto"[0] == 'a';
  }

  lemma ShippedModes(d: Domain)
    requires d.kind == KnobEnum && d.values == ["auto", "cards", "full"]
    ensures WellGridded(d)
  {
    ModesDiffer();
    forall v | v in d.values ensures d.Normalize(v) == v {
      EnumWord(d, v);
    }
  }

  lemma ShippedSwitch(d: Domain)
    requires d.kind == KnobEnum && d.values == ["auto", "off"]
    ensures WellGridded(d)
  {
    EnumWord(d, "auto");
    EnumWord(d, "off");
    assert |"auto"| == 4 && |"off"| == 3;
  }

  lemma ShippedBool(d: Domain)
    requires d.kind == KnobBool && d.values == ["false", "true"]
    ensures WellGridded(d)
  {
    KnownWords();
    TrimIsTrimmed("true");
    TrimIsTrimmed("false");
    assert |"true"| == 4 && |"false"| == 5;
  }

  predicate ShippedDomain(d: Domain) {
    || WholeGrid(d) || ShareGrid(d)
    || (d.kind == KnobEnum && (d.values == ["auto", "cards", "full"] || d.values == ["auto", "off"]))
    || (d.kind == KnobBool && d.values == ["false", "true"])
  }

  lemma IntsShipped(key: string, min: int, max: int, step: int)
    requires 0 <= min && 0 <= max <= 8192 && step > 0
    ensures ShippedDomain(Ints(key, min, max, step).domain)
  {
    assert WholeGrid(Ints(key, min, max, step).domain);
  }

  lemma ConfigDomains(f: Field)
    requires f in ConfigFields()
    ensures ShippedDomain(f.domain)
  {
    IntsShipped("context_slack_percent", 5, 25, 5);
    IntsShipped("excerpt_window_lines", 5, 60, 5);
    IntsShipped("max_retries", 0, 6, 1);
    IntsShipped("max_task_calls", 4, 16, 2);
    IntsShipped("max_tokens", 1024, 8192, 512);
    IntsShipped("memory_tokens", 100, 800, 50);
    IntsShipped("react_compact_at_percent", 50, 95, 5);
    IntsShipped("repo_map_tokens", 0, 2000, 100);
    IntsShipped("skill_max_expanded", 0, 4, 1);
    IntsShipped("think_passes", 1, 3, 1);
  }

  lemma ConfigKeyAllowed(key: string)
    requires Names(ConfigFields(), key) && key in CONFIG_KEYS
    ensures IsWhitelisted(key) && key !in SENSITIVE
  {
    ConfigKeysPlain(key);
    PlainKeyLookup(key);
    if key in SENSITIVE {
      SensitiveExcluded(key);
    }
  }

  /** Every shipped config knob passes its own re-check, and its domain stays coherent
      however far scale.go stretches it. */
  lemma ConfigFieldShipped(f: Field, window: int)
    requires f in ConfigFields()
    ensures IsWhitelisted(f.key) && WellGridded(ScaleDomain(f.key, f.domain, window))
    ensures f.key !in SENSITIVE && f.key in CONFIG_KEYS
  {
    NamesMember(ConfigFields(), f);
    NamedKeys(f.key);
    ConfigKeyAllowed(f.key);
    ConfigDomains(f);
    match f.domain.kind {
      case KnobInt => WholeGridScales(f.domain, Stretch(f.key, KnobInt, window));
      case KnobEnum => if |f.domain.values| == 2 { ShippedSwitch(f.domain); } else { ShippedModes(f.domain); }
      case KnobBool => ShippedBool(f.domain);
      case KnobFloat =>
    }
  }

  /** How many values the sweep tries of each shipped field, and between which ends. */
  lemma AgentSizes(i: nat)
    requires i < 3
    ensures var d := AgentFields()[i].domain;
            && d.GridCount() == [21, 16, 24][i] && d.min == [0, 512, 1][i] * 1_000_000
            && d.max == [1, 8192, 24][i] * 1_000_000
  {
  }

  lemma ConfigSizes(i: nat)
    requires i < 14 && ConfigFields()[i].domain.kind == KnobInt
    ensures var d := ConfigFields()[i].domain;
            && d.GridCount() == [5, 12, 7, 7, 15, 15, 10, 21, 0, 5, 0, 0, 3, 0][i]
            && d.min == [5, 5, 0, 4, 1024, 100, 50, 0, 0, 0, 0, 0, 1, 0][i] * 1_000_000
            && d.max == [25, 60, 6, 16, 8192, 800, 95, 2000, 0, 4, 0, 0, 3, 0][i] * 1_000_000
  {
  }

  lemma KeyNamed(i: nat)
    requires i < |ConfigFields()|
    ensures ConfigFields()[i].key in CONFIG_KEYS
  {
    assert ConfigFields()[i] in ConfigFields();
    NamesMember(ConfigFields(), ConfigFields()[i]);
    NamedKeys(ConfigFields()[i].key);
  }

  lemma AgentKeyNamed(name: string)
    ensures IsAgentField(name) <==> ToLower(Trim(name)) in {"temperature", "max_tokens", "max_iter", "system_prompt"}
  {
    var fields := AgentFields();
    assert fields[0].key == "temperature" && fields[1].key == "max_tokens" && fields[2].key == "max_iter"
           && fields[3].key == "system_prompt" && |fields| == 4;
  }

  /** Length and first letter tell any two config keys apart. */
  const KEY_LENGTHS: seq<nat> := [21, 20, 11, 14, 10, 13, 24, 15, 16, 18, 19, 11, 12, 15]
  const KEY_INITIALS: string := "cemmmmrrsssttw"

  lemma KeyShape(i: nat)
    requires i < |ConfigFields()|
    ensures |ConfigFields()| == 14
    ensures |ConfigFields()[i].key| == KEY_LENGTHS[i] && ConfigFields()[i].key[0] == KEY_INITIALS[i]
  {
  }

  lemma KeyIndex(i: nat, j: nat)
    requires i < 14 && j < 14 && KEY_LENGTHS[i] == KEY_LENGTHS[j] && KEY_INITIALS[i] == KEY_INITIALS[j]
    ensures i == j
  {
  }

  /** A config key has one domain. */
  lemma ConfigFieldUnique(f: Field, g: Field)
    requires f in ConfigFields() && g in ConfigFields() && f.key == g.key
    ensures f == g
  {
    var i :| 0 <= i < |ConfigFields()| && ConfigFields()[i] == f;
    var j :| 0 <= j < |ConfigFields()| && ConfigFields()[j] == g;
    KeyShape(i);
    KeyShape(j);
    KeyIndex(i, j);
  }

  /** Agent field keys are distinct, so a field has one domain. */
  lemma AgentFieldUnique(f: Field, g: Field)
    requires f in AgentFields() && g in AgentFields() && f.key == g.key
    ensures f == g
  {
    assert |"temperature"| == 11 && |"max_tokens"| == 10 && |"max_iter"| == 8 && |"system_prompt"| == 13;
  }

  lemma AgentKeysDistinct()
    ensures forall i, j :: 0 <= i < j < |AgentFields()| ==> AgentFields()[i].key != AgentFields()[j].key
  {
    assert |"temperature"| == 11 && |"max_tokens"| == 10 && |"max_iter"| == 8 && |"system_prompt"| == 13;
  }

  lemma ConfigKeysDistinct()
    ensures forall i, j :: 0 <= i < j < |ConfigFields()| ==> ConfigFields()[i].key != ConfigFields()[j].key
  {
    forall i, j | 0 <= i < j < |ConfigFields()|
      ensures ConfigFields()[i].key != ConfigFields()[j].key
    {
      KeyShape(i);
      KeyShape(j);
      if ConfigFields()[i].key == ConfigFields()[j].key {
        KeyIndex(i, j);
      }
    }
  }

  function KeyCount(fields: seq<Field>, key: string): nat {
    if fields == [] then 0 else (if fields[0].key == key then 1 else 0) + KeyCount(fields[1..], key)
  }

  lemma {:induction false} KeyCountDistinct(fields: seq<Field>, key: string)
    requires forall i, j :: 0 <= i < j < |fields| ==> fields[i].key != fields[j].key
    ensures KeyCount(fields, key) <= 1
    ensures (forall i :: 0 <= i < |fields| ==> fields[i].key != key) ==> KeyCount(fields, key) == 0
  {
    if fields != [] {
      KeyCountDistinct(fields[1..], key);
    }
  }
}
