/** pkg/backends/capabilities.go: what a backend supports, negotiated once and remembered. */
module Capabilities {
  import opened Text

  /** A capability record. probed None is Go's zero time: never confirmed by a probe. */
  datatype Caps = Caps(jsonObject: bool, jsonSchema: bool, guidedJson: bool, grammar: bool, tools: bool,
                       streaming: bool, probed: Option<int>, source: string)

  function Zero(): Caps { Caps(false, false, false, false, false, false, None, "") }

  /** Seven days, in nanoseconds. */
  const CAPABILITY_TTL: int := 7 * 24 * 3600 * 1_000_000_000

  predicate Expired(v: Caps, now: int) { v.probed.Some? && now - v.probed.value > CAPABILITY_TTL }

  /** What loading accepts: probed, and not too long ago. */
  predicate Loadable(v: Caps, now: int) { v.probed.Some? && now - v.probed.value <= CAPABILITY_TTL }

  // ---- the cache -----------------------------------------------------------

  /** Memory, the file (None when it is missing or does not parse), whether a directory is set
      and whether the file was merged. */
  datatype Cache = Cache(mem: map<string, Caps>, file: Option<map<string, Caps>>, dir: bool, loaded: bool)

  /** The part of a merge that has looked at the keys in seen. */
  function MergeSeen(mem: map<string, Caps>, disk: map<string, Caps>, seen: set<string>, now: int): map<string, Caps>
    requires seen <= disk.Keys
  {
    map k | k in mem.Keys + seen && (k in mem || Loadable(disk[k], now)) ::
      if k in mem then mem[k] else disk[k].(source := "cache")
  }

  function Merge(mem: map<string, Caps>, disk: map<string, Caps>, now: int): map<string, Caps> {
    MergeSeen(mem, disk, disk.Keys, now)
  }

  function Loaded(c: Cache, now: int): Cache {
    if c.loaded then c
    else if c.dir && c.file.Some? then c.(loaded := true, mem := Merge(c.mem, c.file.value, now))
    else c.(loaded := true)
  }

  function Get(c: Cache, key: string, now: int): (Cache, Option<Caps>) {
    var c := Loaded(c, now);
    if key !in c.mem then (c, None)
    else if Expired(c.mem[key], now) then (c.(mem := c.mem - {key}), None)
    else (c, Some(c.mem[key]))
  }

  /** The records worth keeping on disk. */
  function Probed(mem: map<string, Caps>): map<string, Caps> {
    map k | k in mem && mem[k].probed.Some? :: mem[k]
  }

  /** os.WriteFile: it may write the whole file, be refused before it touches it, or fail after
      truncating it, which leaves text that does not parse. Its error is dropped. */
  datatype Writing = Whole | Refused | Torn

  function Put(c: Cache, key: string, v: Caps, now: int, writes: Writing): Cache {
    var c := Loaded(c, now);
    var mem := c.mem[key := v];
    if !c.dir || v.probed.None? || writes.Refused? then c.(mem := mem)
    else c.(mem := mem, file := if writes.Whole? then Some(Probed(mem)) else None)
  }

  /** Disk never overrides memory, and nothing stale or unconfirmed comes off it. */
  lemma LoadNeverOverrides(c: Cache, now: int, key: string)
    ensures key in c.mem ==> key in Loaded(c, now).mem && Loaded(c, now).mem[key] == c.mem[key]
    ensures key !in c.mem && key in Loaded(c, now).mem ==>
              Loaded(c, now).mem[key].probed.Some? && !Expired(Loaded(c, now).mem[key], now)
  {
  }

  /** No record without a probe time is ever written. */
  ghost predicate Confirmed(file: Option<map<string, Caps>>) {
    file.Some? ==> forall k :: k in file.value ==> file.value[k].probed.Some?
  }

  /** A record written by this process is what the next one loads, re-labelled, as long as it
      is fresh. */
  lemma PutSurvivesRestart(c: Cache, key: string, v: Caps, now: int, later: int)
    requires c.dir && Loadable(v, later)
    ensures var next := Cache(map[], Put(c, key, v, now, Whole).file, true, false);
            Get(next, key, later).1 == Some(v.(source := "cache"))
  {
    var next := Cache(map[], Put(c, key, v, now, Whole).file, true, false);
    assert key in Probed(Loaded(c, now).mem[key := v]);
    assert key in Loaded(next, later).mem;
  }

  lemma MergeOne(mem: map<string, Caps>, disk: map<string, Caps>, seen: set<string>, k: string, now: int,
                 m: map<string, Caps>)
    requires seen <= disk.Keys && k in disk && k !in seen && m == MergeSeen(mem, disk, seen, now)
    ensures k !in m && Loadable(disk[k], now) ==>
              MergeSeen(mem, disk, seen + {k}, now) == m[k := disk[k].(source := "cache")]
    ensures k in m || !Loadable(disk[k], now) ==> MergeSeen(mem, disk, seen + {k}, now) == m
  {
  }

  method MergeFile(mem: map<string, Caps>, disk: map<string, Caps>, now: int) returns (m: map<string, Caps>)
    ensures m == Merge(mem, disk, now)
  {
    m := mem;
    var seen: set<string> := {};
    MergeNone(mem, disk, now);
    while disk.Keys - seen != {}
      invariant seen <= disk.Keys && m == MergeSeen(mem, disk, seen, now)
      decreases disk.Keys - seen
    {
      var k :| k in disk.Keys - seen;
      m := MergeKey(mem, disk, seen, k, now, m);
      seen := seen + {k};
    }
    assert seen == disk.Keys;
  }

  lemma MergeNone(mem: map<string, Caps>, disk: map<string, Caps>, now: int)
    ensures MergeSeen(mem, disk, {}, now) == mem
  {
  }

  method MergeKey(mem: map<string, Caps>, disk: map<string, Caps>, seen: set<string>, k: string, now: int,
                  m: map<string, Caps>)
    returns (m': map<string, Caps>)
    requires seen <= disk.Keys && k in disk.Keys - seen && m == MergeSeen(mem, disk, seen, now)
    ensures m' == MergeSeen(mem, disk, seen + {k}, now)
  {
    MergeOne(mem, disk, seen, k, now, m);
    m' := m;
    if k !in m && Loadable(disk[k], now) {
      m' := m[k := disk[k].(source := "cache")];
    }
  }

  /** The confirmed records, key by key in any order. */
  method SnapshotOf(mem: map<string, Caps>) returns (snapshot: map<string, Caps>)
    ensures snapshot == Probed(mem)
  {
    snapshot := map[];
    var todo := mem.Keys;
    while todo != {}
      invariant todo <= mem.Keys
      invariant snapshot == map k | k in mem.Keys - todo && mem[k].probed.Some? :: mem[k]
      decreases |todo|
    {
      var k :| k in todo;
      todo := todo - {k};
      if mem[k].probed.Some? {
        snapshot := snapshot[k := mem[k]];
      }
    }
  }

  /** capCache: every method runs under the mutex, so each is one atomic step. */
  class CapCache {
    var mem: map<string, Caps>
    var file: Option<map<string, Caps>>
    var dir: bool
    var loaded: bool

    ghost function State(): Cache
      reads this
    {
      Cache(mem, file, dir, loaded)
    }

    constructor (dir: bool, file: Option<map<string, Caps>>)
      ensures State() == Cache(map[], file, dir, false)
    {
      this.mem := map[];
      this.file := file;
      this.dir := dir;
      this.loaded := false;
    }

    /** loadLocked: merge the file once, key by key in any order. */
    method LoadLocked(now: int)
      modifies this
      ensures State() == Loaded(old(State()), now)
    {
      if loaded {
        return;
      }
      loaded := true;
      if !dir || file.None? {
        return;
      }
      var disk := file.value;
      mem := MergeFile(mem, disk, now);
    }

    /** get. */
    method Lookup(key: string, now: int) returns (v: Option<Caps>)
      modifies this
      ensures (State(), v) == Get(old(State()), key, now)
    {
      LoadLocked(now);
      if key !in mem {
        return None;
      }
      v := Some(mem[key]);
      if Expired(mem[key], now) {
        mem := mem - {key};
        v := None;
      }
    }

    /** put. */
    method Store(key: string, v: Caps, now: int, writes: Writing)
      modifies this
      ensures State() == Put(old(State()), key, v, now, writes)
    {
      LoadLocked(now);
      mem := mem[key := v];
      if !dir || v.probed.None? {
        return;
      }
      var snapshot := SnapshotOf(mem);
      match writes {
        case Whole => file := Some(snapshot);
        case Refused =>
        case Torn => file := None;
      }
    }
  }

  // ---- the probe -----------------------------------------------------------

  /** One negotiation request: an HTTP status, or a transport error, which may be the shared
      deadline running out. */
  datatype Reply = Status(code: int) | Broken(deadline: bool)

  predicate Accepted(r: Reply) { r.Status? && 200 <= r.code < 300 }

  /** The six requests, in the order they are made. */
  datatype Ask = Plain | AskSchema | AskGuided | AskGrammar | AskObject | AskTools

  /** Whether the preset makes this request worth issuing. */
  predicate Worth(prior: Caps, a: Ask) {
    match a
    case Plain => true
    case AskSchema => prior.jsonSchema
    case AskGuided => prior.guidedJson
    case AskGrammar => prior.grammar
    case AskObject => true
    case AskTools => prior.tools
  }

  predicate CutShort(r: Reply) { r.Broken? && r.deadline }

  function Confirmation(prior: Caps, replies: Ask -> Reply, a: Ask): bool {
    Worth(prior, a) && Accepted(replies(a))
  }

  /** The shared deadline ran out on a request that was issued. */
  ghost predicate AnyCut(prior: Caps, replies: Ask -> Reply) {
    exists a: Ask :: Worth(prior, a) && CutShort(replies(a))
  }

  /** What confirmed capabilities a full negotiation yields. */
  function Answers(prior: Caps, replies: Ask -> Reply): Caps {
    Caps(Confirmation(prior, replies, AskObject), Confirmation(prior, replies, AskSchema),
         Confirmation(prior, replies, AskGuided), Confirmation(prior, replies, AskGrammar),
         Confirmation(prior, replies, AskTools), prior.streaming, None, "")
  }

  /** runProbe as a table: what each pattern of replies is worth. */
  ghost function ProbeResult(prior: Caps, url: bool, replies: Ask -> Reply, now: int): Caps {
    if !url || replies(Plain).Broken? then Zero().(source := "unreachable")
    else if AnyCut(prior, replies) then prior.(source := "prior-probe-timeout", probed := None)
    else Answers(prior, replies).(probed := Some(now), source := "probe")
  }

  /** One request: whether it was accepted, whether anything answered yet, and whether the
      shared deadline has run out. */
  method Attempt(r: Reply, reachable: bool, cutShort: bool) returns (ok: bool, reached: bool, cut: bool)
    ensures ok == Accepted(r) && reached == (reachable || r.Status?) && cut == (cutShort || CutShort(r))
  {
    match r {
      case Broken(deadline) => return false, reachable, cutShort || deadline;
      case Status(code) => return 200 <= code < 300, true, cutShort;
    }
  }

  /** runProbe as the source runs it. The preset has no probe time. */
  method RunProbe(prior: Caps, url: bool, replies: Ask -> Reply, now: int) returns (out: Caps)
    requires prior.probed.None?
    ensures out == ProbeResult(prior, url, replies, now)
  {
    if !url {
      return Zero().(source := "unreachable");
    }
    var ok, reachable, cutShort := Attempt(replies(Plain), false, false);
    if !ok && !reachable {
      return Zero().(source := "unreachable");
    }
    // The source's later test for an unreachable endpoint is dead code: this request got a status.
    out, cutShort := Negotiate(prior, replies, cutShort);
    if cutShort {
      return prior.(source := "prior-probe-timeout");
    }
    out := out.(probed := Some(now), source := "probe");
  }

  /** The requests after the first, each only if the preset makes it worth asking. */
  method Negotiate(prior: Caps, replies: Ask -> Reply, cut0: bool) returns (out: Caps, cutShort: bool)
    requires cut0 == CutShort(replies(Plain))
    ensures out == Answers(prior, replies) && cutShort == AnyCut(prior, replies)
  {
    out := Zero().(streaming := prior.streaming);
    cutShort := cut0;
    var ok, reachable := false, true;
    if prior.jsonSchema {
      ok, reachable, cutShort := Attempt(replies(AskSchema), reachable, cutShort);
      out := out.(jsonSchema := ok);
    }
    if prior.guidedJson {
      ok, reachable, cutShort := Attempt(replies(AskGuided), reachable, cutShort);
      out := out.(guidedJson := ok);
    }
    if prior.grammar {
      ok, reachable, cutShort := Attempt(replies(AskGrammar), reachable, cutShort);
      out := out.(grammar := ok);
    }
    ok, reachable, cutShort := Attempt(replies(AskObject), reachable, cutShort);
    out := out.(jsonObject := ok);
    if prior.tools {
      ok, reachable, cutShort := Attempt(replies(AskTools), reachable, cutShort);
      out := out.(tools := ok);
    }
    AnyCutCases(prior, replies);
  }

  lemma AnyCutCases(prior: Caps, replies: Ask -> Reply)
    ensures AnyCut(prior, replies) <==>
            || CutShort(replies(Plain)) || (prior.jsonSchema && CutShort(replies(AskSchema)))
            || (prior.guidedJson && CutShort(replies(AskGuided))) || (prior.grammar && CutShort(replies(AskGrammar)))
            || CutShort(replies(AskObject)) || (prior.tools && CutShort(replies(AskTools)))
  {
    if CutShort(replies(Plain)) {
      assert Worth(prior, Plain);
    }
    if CutShort(replies(AskObject)) {
      assert Worth(prior, AskObject);
    }
    forall a | a in {AskSchema, AskGuided, AskGrammar, AskTools} && Worth(prior, a) && CutShort(replies(a))
      ensures AnyCut(prior, replies)
    {
    }
    assert Worth(prior, AskSchema) == prior.jsonSchema && Worth(prior, AskGuided) == prior.guidedJson;
    assert Worth(prior, AskGrammar) == prior.grammar && Worth(prior, AskTools) == prior.tools;
    if AnyCut(prior, replies) {
      var a: Ask :| Worth(prior, a) && CutShort(replies(a));
      match a {
        case Plain =>
        case AskSchema =>
        case AskGuided =>
        case AskGrammar =>
        case AskObject =>
        case AskTools =>
      }
    }
  }

  /** Which field a request settles. */
  predicate Claims(c: Caps, a: Ask) {
    match a
    case Plain => true
    case AskSchema => c.jsonSchema
    case AskGuided => c.guidedJson
    case AskGrammar => c.grammar
    case AskObject => c.jsonObject
    case AskTools => c.tools
  }

  /** A record is stamped as probed exactly when the endpoint answered and the deadline never
      ran out on an issued request; every capability it then claims was accepted by the server,
      and every one it denies was refused, not worth asking, or lost to a transport error. */
  lemma ProbedIsConfirmed(prior: Caps, url: bool, replies: Ask -> Reply, now: int, a: Ask)
    requires prior.probed.None?
    ensures var out := ProbeResult(prior, url, replies, now);
            && (out.probed.Some? <==> url && replies(Plain).Status? && !AnyCut(prior, replies))
            && (out.probed.Some? && a != Plain ==> (Claims(out, a) <==> Worth(prior, a) && Accepted(replies(a))))
            && (out.probed.None? ==>
                  || out == Caps(false, false, false, false, false, false, None, "unreachable")
                  || out == prior.(source := "prior-probe-timeout"))
            && (out.probed.None? && url && replies(Plain).Status? ==> out.source == "prior-probe-timeout")
            && (out.probed.Some? ==>
                  out.probed == Some(now) && out.source == "probe" && out.streaming == prior.streaming)
  {
  }

  /** A negotiation the deadline cut short is never persisted: whatever is in the cache, putting
      its result leaves the file alone. */
  lemma CutShortNotPersisted(c: Cache, key: string, prior: Caps, replies: Ask -> Reply, now: int, writes: Writing,
                             a: Ask)
    requires prior.probed.None? && Worth(prior, a) && CutShort(replies(a))
    ensures Put(c, key, ProbeResult(prior, true, replies, now), now, writes).file == c.file
  {
    assert AnyCut(prior, replies);
  }

  /** demoteCapability on a cached record: a mechanism the server just rejected. */
  function Demoted(v: Caps, m: Mechanism, now: int): Caps {
    (match m
     case BySchema => v.(jsonSchema := false)
     case ByGuided => v.(guidedJson := false)
     case ByGrammar => v.(grammar := false)
     case ByObject => v.(jsonObject := false)
     case PromptOnly => v).(probed := Some(now), source := "demoted")
  }

  function Demote(c: Cache, key: string, m: Mechanism, now: int, writes: Writing): Cache {
    var (c, v) := Get(c, key, now);
    if v.None? then c else Put(c, key, Demoted(v.value, m, now), now, writes)
  }

  /** What a demotion does to a guess: it stamps the guessed record with a probe time and writes it,
      so the next process trusts the rest of the guess for a whole TTL instead of negotiating. That
      nothing but a demotion or a seed puts a guess on the file is OnFileOnlyIfSeeded in ProbeRace. */
  lemma DemotionPersistsGuess(c: Cache, key: string, guess: Caps, m: Mechanism, now: int, later: int)
    requires c.loaded && c.dir && key in c.mem && c.mem[key] == guess && guess.probed.None?
    requires 0 <= later - now <= CAPABILITY_TTL
    ensures c.file.None? || key !in c.file.value ==> Get(Cache(map[], c.file, true, false), key, later).1 == None
    ensures var next := Cache(map[], Demote(c, key, m, now, Whole).file, true, false);
            Get(next, key, later).1 == Some(Demoted(guess, m, now).(source := "cache"))
    ensures forall other :: other != m && other != PromptOnly ==>
              (Supports(Demoted(guess, m, now), other) <==> Supports(guess, other))
  {
    assert Get(c, key, now) == (c, Some(guess));
    PutSurvivesRestart(c, key, Demoted(guess, m, now), now, later);
  }

  /** A week, to the nanosecond: a record is used up to its seventh day and no longer, in memory and off
      the file alike, and one that was never confirmed does not age and is not loaded. */
  lemma WeekOfTrust(v: Caps, now: int)
    ensures v.probed.Some? ==> (Expired(v, now) <==> now - v.probed.value > 604_800_000_000_000)
    ensures v.probed.Some? ==> (Loadable(v, now) <==> !Expired(v, now))
    ensures v.probed.None? ==> !Expired(v, now) && !Loadable(v, now)
  {
  }

  /** A mechanism the server rejected is not chosen again from the demoted record, whatever else is ruled
      out; every other mechanism and capability stays, and the record is stamped and labelled. */
  lemma DemotedIsNotChosen(v: Caps, m: Mechanism, now: int, exclude: set<Mechanism>)
    ensures var d := Demoted(v, m, now);
            && (m != PromptOnly ==> SelectMechanism(d, exclude) != m)
            && (forall other :: other != m ==> (Supports(d, other) <==> Supports(v, other)))
            && d.tools == v.tools && d.streaming == v.streaming && d.probed == Some(now) && d.source == "demoted"
            && (m == PromptOnly ==> d == v.(probed := Some(now), source := "demoted"))
  {
  }

  /** The order of preference: a schema, guided decoding, a grammar, a JSON object, the prompt alone. */
  lemma PreferenceOrder(c: Caps, exclude: set<Mechanism>)
    ensures var m := SelectMechanism(c, exclude);
            && (c.jsonSchema && BySchema !in exclude ==> m == BySchema)
            && (m == ByGrammar ==> !(c.guidedJson && ByGuided !in exclude))
            && (m == ByObject ==>
                  !(c.guidedJson && ByGuided !in exclude) && !(c.grammar && ByGrammar !in exclude))
            && (m == PromptOnly ==> !(c.jsonSchema && BySchema !in exclude) && !(c.guidedJson && ByGuided !in exclude)
                                    && !(c.grammar && ByGrammar !in exclude) && !(c.jsonObject && ByObject !in exclude))
            && (m == BySchema ==> c.jsonSchema) && (m == ByGuided ==> c.guidedJson) && (m == ByGrammar ==> c.grammar)
            && (m == ByObject ==> c.jsonObject)
  {
  }

  // ---- choosing a mechanism ------------------------------------------------

  datatype Mechanism = ByGrammar | ByGuided | BySchema | ByObject | PromptOnly

  predicate Supports(c: Caps, m: Mechanism) {
    match m
    case BySchema => c.jsonSchema
    case ByGuided => c.guidedJson
    case ByGrammar => c.grammar
    case ByObject => c.jsonObject
    case PromptOnly => true
  }

  /** Position in the order of preference. */
  function Preference(m: Mechanism): nat {
    match m
    case BySchema => 0
    case ByGuided => 1
    case ByGrammar => 2
    case ByObject => 3
    case PromptOnly => 4
  }

  /** SelectMechanism: the most preferred supported mechanism not yet rejected; prompt-only is
      always left. */
  function SelectMechanism(c: Caps, exclude: set<Mechanism>): (m: Mechanism)
    ensures Supports(c, m) && (m != PromptOnly ==> m !in exclude)
    ensures forall better :: Supports(c, better) && better !in exclude ==> Preference(m) <= Preference(better)
  {
    if c.jsonSchema && BySchema !in exclude then BySchema
    else if c.guidedJson && ByGuided !in exclude then ByGuided
    else if c.grammar && ByGrammar !in exclude then ByGrammar
    else if c.jsonObject && ByObject !in exclude then ByObject
    else PromptOnly
  }
}
