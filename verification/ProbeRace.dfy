/** Any number of Probe calls on any keys, interleaved step by step under the cache mutex. */
module ProbeRace {
  import opened Text
  import opened Capabilities

  datatype Once = Idle | Running(pid: nat) | Spent

  /** Where one call to Probe stands. */
  datatype At = AtGet | AtOnce | AtDo | Probing | Putting(rec: Caps) | Finishing | AtReread

  datatype Caller = Caller(key: string, at: At)

  /** A finished call: what it returned (None is the zero record) and when. */
  datatype Return = Return(key: string, rec: Option<Caps>)

  /** The process. ran, first, seeded and log only observe: the probe bodies run so far, the
      first record each key ever had in memory, the keys touched by SetCapabilities or a
      demotion, and the finished calls. */
  datatype State = State(cache: Cache, once: map<string, Once>, callers: map<nat, Caller>, now: int,
                         ran: multiset<string>, first: map<string, Caps>, seeded: set<string>, log: seq<Return>)

  datatype Action =
    | Tick(now: int)
    | Begin(pid: nat, key: string)
    | FirstGet(pid: nat)
    | TakeOnce(pid: nat)
    | Enter(pid: nat)
    | Skip(pid: nat)
    | Answer(pid: nat, rec: Caps)
    | StoreRecord(pid: nat, writes: Writing)
    | Finish(pid: nat)
    | Reread(pid: nat)
    | Peek(key: string)
    | Seed(key: string, rec: Caps, writes: Writing)

  function OnceOf(s: State, key: string): Once { if key in s.once then s.once[key] else Idle }

  /** Record what appeared in memory. */
  function Noted(first: map<string, Caps>, mem: map<string, Caps>): map<string, Caps> {
    map k | k in first.Keys + mem.Keys :: if k in first then first[k] else mem[k]
  }

  predicate StandsAt(s: State, pid: nat, at: At) { pid in s.callers && s.callers[pid].at == at }

  /** Peek is CachedCapabilities, or the reading half of a demotion; Seed is SetCapabilities, or
      its writing half. sync.Once.Do blocks while another caller runs, so a caller at Do moves only when the
      Once is unused or spent. */
  predicate Enabled(s: State, a: Action) {
    match a
    case Tick(now) => now >= s.now
    case Begin(pid, _) => pid !in s.callers
    case FirstGet(pid) => StandsAt(s, pid, AtGet)
    case TakeOnce(pid) => StandsAt(s, pid, AtOnce)
    case Enter(pid) => StandsAt(s, pid, AtDo) && OnceOf(s, s.callers[pid].key) == Idle
    case Skip(pid) => StandsAt(s, pid, AtDo) && OnceOf(s, s.callers[pid].key) == Spent
    case Answer(pid, rec) => StandsAt(s, pid, Probing)
    case StoreRecord(pid, _) => pid in s.callers && s.callers[pid].at.Putting?
    case Finish(pid) => StandsAt(s, pid, Finishing)
    case Reread(pid) => StandsAt(s, pid, AtReread)
    case Peek(_) => true
    case Seed(_, _, _) => true
  }

  function Moved(s: State, pid: nat, at: At): State
    requires pid in s.callers
  {
    s.(callers := s.callers[pid := s.callers[pid].(at := at)])
  }

  /** get, and whatever loading it triggers. */
  function Fetched(s: State, key: string): (State, Option<Caps>) {
    var (cache, rec) := Get(s.cache, key, s.now);
    (s.(cache := cache, first := Noted(s.first, Loaded(s.cache, s.now).mem)), rec)
  }

  function Returned(s: State, pid: nat, rec: Option<Caps>): State
    requires pid in s.callers
  {
    s.(callers := s.callers - {pid}, log := s.log + [Return(s.callers[pid].key, rec)])
  }

  function Stored(s: State, key: string, rec: Caps, writes: Writing): State {
    var cache := Put(s.cache, key, rec, s.now, writes);
    s.(cache := cache, first := Noted(s.first, cache.mem))
  }

  function Next(s: State, a: Action): State
    requires Enabled(s, a)
  {
    match a
    case Tick(now) => s.(now := now)
    case Begin(pid, key) => s.(callers := s.callers[pid := Caller(key, AtGet)])
    case FirstGet(pid) =>
      var (s', rec) := Fetched(s, s.callers[pid].key);
      if rec.Some? then Returned(s', pid, rec) else Moved(s', pid, AtOnce)
    case TakeOnce(pid) =>
      var key := s.callers[pid].key;
      Moved(s.(once := s.once[key := OnceOf(s, key)]), pid, AtDo)
    case Enter(pid) =>
      var key := s.callers[pid].key;
      Moved(s.(once := s.once[key := Running(pid)], ran := s.ran + multiset{key}), pid, Probing)
    case Skip(pid) => Moved(s, pid, AtReread)
    case Answer(pid, rec) => Moved(s, pid, Putting(rec))
    case StoreRecord(pid, writes) => Moved(Stored(s, s.callers[pid].key, s.callers[pid].at.rec, writes), pid, Finishing)
    case Finish(pid) => Moved(s.(once := s.once[s.callers[pid].key := Spent]), pid, AtReread)
    case Reread(pid) =>
      var (s', rec) := Fetched(s, s.callers[pid].key);
      Returned(s', pid, rec)
    case Peek(key) => Fetched(s, key).0
    case Seed(key, rec, writes) => Stored(s, key, rec, writes).(seeded := s.seeded + {key})
  }

  /** A cold process: nothing in memory, any file on disk. */
  function Cold(file: Option<map<string, Caps>>, dir: bool, now: int): State {
    State(Cache(map[], file, dir, false), map[], map[], now, multiset{}, map[], {}, [])
  }

  ghost predicate Runnable(s: State, actions: seq<Action>)
    decreases |actions|
  {
    actions == [] || (Enabled(s, actions[0]) && Runnable(Next(s, actions[0]), actions[1..]))
  }

  function Run(s: State, actions: seq<Action>): State
    requires Runnable(s, actions)
    decreases |actions|
  {
    if actions == [] then s else Run(Next(s, actions[0]), actions[1..])
  }

  // ---- the invariant -------------------------------------------------------

  /** The first record of a key is still good. */
  predicate Live(s: State, key: string) { key in s.first && !Expired(s.first[key], s.now) }

  ghost predicate KeyOk(s: State, key: string) {
    var o := OnceOf(s, key);
    && s.ran[key] == (if o.Idle? then 0 else 1)
    && (key in s.cache.mem ==> key in s.first)
    && (key !in s.seeded && Live(s, key) ==> key in s.cache.mem && s.cache.mem[key] == s.first[key])
    && (o.Spent? ==> key in s.first)
    && (o.Running? ==> o.pid in s.callers && s.callers[o.pid].key == key && InBody(s.callers[o.pid].at))
  }

  predicate InBody(at: At) { at.Probing? || at.Putting? || at.Finishing? }

  ghost predicate CallerOk(s: State, pid: nat)
    requires pid in s.callers
  {
    var key, at := s.callers[pid].key, s.callers[pid].at;
    && (!at.AtGet? ==> s.cache.loaded)
    && (at.AtOnce? || at.AtDo? ==> key in s.seeded || !Live(s, key) || !OnceOf(s, key).Idle?)
    && (InBody(at) ==> OnceOf(s, key) == Running(pid))
    && (at.Probing? || at.Putting? ==> key in s.seeded || !Live(s, key))
    && (at.Finishing? ==> key in s.first)
    && (at.AtReread? ==> OnceOf(s, key) == Spent)
  }

  ghost predicate ReturnOk(s: State, r: Return) {
    r.key in s.seeded || (r.key in s.first && (Live(s, r.key) ==> r.rec == Some(s.first[r.key])))
  }

  ghost predicate Inv(s: State) {
    && (!s.cache.loaded ==> s.cache.mem == map[] && s.first == map[])
    && (forall key :: KeyOk(s, key))
    && (forall pid :: pid in s.callers ==> CallerOk(s, pid))
    && (forall i :: 0 <= i < |s.log| ==> ReturnOk(s, s.log[i]))
  }

  /** Whose step an action is; the clock and the other entry points belong to no caller. */
  function ActorOf(a: Action): Option<nat> {
    match a
    case Tick(_) => None
    case Begin(pid, _) => Some(pid)
    case FirstGet(pid) => Some(pid)
    case TakeOnce(pid) => Some(pid)
    case Enter(pid) => Some(pid)
    case Skip(pid) => Some(pid)
    case Answer(pid, _) => Some(pid)
    case StoreRecord(pid, _) => Some(pid)
    case Finish(pid) => Some(pid)
    case Reread(pid) => Some(pid)
    case Peek(_) => None
    case Seed(_, _, _) => None
  }

  ghost predicate CanMove(s: State, pid: nat) { exists a :: Enabled(s, a) && ActorOf(a) == Some(pid) }

  lemma BodyMoves(s: State, pid: nat)
    requires pid in s.callers && InBody(s.callers[pid].at)
    ensures CanMove(s, pid)
  {
    match s.callers[pid].at {
      case Probing => assert Enabled(s, Answer(pid, Zero())) && ActorOf(Answer(pid, Zero())) == Some(pid);
      case Putting(_) => assert Enabled(s, StoreRecord(pid, Whole)) && ActorOf(StoreRecord(pid, Whole)) == Some(pid);
      case Finishing => assert Enabled(s, Finish(pid)) && ActorOf(Finish(pid)) == Some(pid);
    }
  }

  /** Nobody is ever stuck: a caller can take its next step, unless it waits for another that is in the
      probe body of the same key, and that one can. The entry points that are no call of Probe never wait. */
  lemma NoCallerStuck(s: State, pid: nat)
    requires Inv(s) && pid in s.callers
    ensures CanMove(s, pid)
         || (s.callers[pid].at == AtDo
             && exists q: nat :: q in s.callers && q != pid && s.callers[q].key == s.callers[pid].key && CanMove(s, q))
    ensures forall key, rec, writes :: Enabled(s, Peek(key)) && Enabled(s, Seed(key, rec, writes))
  {
    var key := s.callers[pid].key;
    match s.callers[pid].at {
      case AtGet => assert Enabled(s, FirstGet(pid)) && ActorOf(FirstGet(pid)) == Some(pid);
      case AtOnce => assert Enabled(s, TakeOnce(pid)) && ActorOf(TakeOnce(pid)) == Some(pid);
      case AtReread => assert Enabled(s, Reread(pid)) && ActorOf(Reread(pid)) == Some(pid);
      case AtDo =>
        match OnceOf(s, key) {
          case Idle => assert Enabled(s, Enter(pid)) && ActorOf(Enter(pid)) == Some(pid);
          case Spent => assert Enabled(s, Skip(pid)) && ActorOf(Skip(pid)) == Some(pid);
          case Running(q) =>
            assert KeyOk(s, key);
            BodyMoves(s, q);
        }
      case _ => BodyMoves(s, pid);
    }
  }

  /** Getting or storing changes memory, the file and first, and nothing else. */
  ghost predicate SameCalls(s: State, t: State) {
    && t.once == s.once && t.callers == s.callers && t.now == s.now && t.ran == s.ran && t.log == s.log
  }

  lemma FetchKeeps(s: State, key: string)
    requires Inv(s)
    ensures var (t, rec) := Fetched(s, key);
            && Inv(t) && SameCalls(s, t) && t.seeded == s.seeded && t.cache.loaded
            && (rec.Some? ==> key in t.first && (key !in t.seeded && Live(t, key) ==> rec == Some(t.first[key])))
            && (rec.None? ==> key in t.seeded || !Live(t, key))
  {
    var (t, rec) := Fetched(s, key);
    forall k ensures KeyOk(t, k) {
      assert KeyOk(s, k);
    }
    forall pid | pid in t.callers ensures CallerOk(t, pid) {
      assert CallerOk(s, pid);
      FetchCaller(s, key, pid);
    }
    forall i | 0 <= i < |t.log| ensures ReturnOk(t, t.log[i]) {
      assert ReturnOk(s, s.log[i]);
    }
    assert KeyOk(s, key) && KeyOk(t, key);
  }

  /** A key becomes live by loading only when nobody can have got past the first get. */
  lemma FetchCaller(s: State, key: string, pid: nat)
    requires Inv(s) && pid in s.callers
    ensures CallerOk(Fetched(s, key).0, pid)
  {
    assert CallerOk(s, pid) && KeyOk(s, s.callers[pid].key);
  }

  lemma SeedKeeps(s: State, key: string, rec: Caps, writes: Writing)
    requires Inv(s)
    ensures Inv(Next(s, Seed(key, rec, writes)))
  {
    var t := Next(s, Seed(key, rec, writes));
    forall k ensures KeyOk(t, k) {
      assert KeyOk(s, k);
    }
    forall pid | pid in t.callers ensures CallerOk(t, pid) {
      assert CallerOk(s, pid) && KeyOk(s, s.callers[pid].key);
    }
    forall i | 0 <= i < |t.log| ensures ReturnOk(t, t.log[i]) {
      assert ReturnOk(s, s.log[i]);
    }
  }

  /** The one running probe stores its record under a key that has no live record yet. */
  lemma StoreKeeps(s: State, pid: nat, writes: Writing)
    requires Inv(s) && Enabled(s, StoreRecord(pid, writes))
    ensures Inv(Next(s, StoreRecord(pid, writes)))
  {
    var t := Next(s, StoreRecord(pid, writes));
    var key := s.callers[pid].key;
    assert CallerOk(s, pid);
    forall k ensures KeyOk(t, k) {
      assert KeyOk(s, k);
    }
    forall p | p in t.callers ensures CallerOk(t, p) {
      assert CallerOk(s, p) && KeyOk(s, s.callers[p].key);
    }
    forall i | 0 <= i < |t.log| ensures ReturnOk(t, t.log[i]) {
      assert ReturnOk(s, s.log[i]);
    }
  }

  lemma TickKeeps(s: State, now: int)
    requires Inv(s) && now >= s.now
    ensures Inv(Next(s, Tick(now)))
  {
    var t := Next(s, Tick(now));
    forall k ensures KeyOk(t, k) {
      assert KeyOk(s, k);
    }
    forall p | p in t.callers ensures CallerOk(t, p) {
      assert CallerOk(s, p);
    }
    forall i | 0 <= i < |t.log| ensures ReturnOk(t, t.log[i]) {
      assert ReturnOk(s, s.log[i]);
    }
  }

  /** The steps that touch only one caller and its Once. */
  lemma OnceKeeps(s: State, a: Action)
    requires Inv(s) && Enabled(s, a)
    requires a.Begin? || a.TakeOnce? || a.Enter? || a.Skip? || a.Answer? || a.Finish?
    ensures Inv(Next(s, a))
  {
    var t := Next(s, a);
    if !a.Begin? {
      assert CallerOk(s, a.pid);
    }
    forall k ensures KeyOk(t, k) {
      assert KeyOk(s, k);
    }
    forall p | p in t.callers ensures CallerOk(t, p) {
      if p in s.callers {
        assert CallerOk(s, p) && KeyOk(s, s.callers[p].key);
      }
    }
    forall i | 0 <= i < |t.log| ensures ReturnOk(t, t.log[i]) {
      assert ReturnOk(s, s.log[i]);
    }
  }

  lemma ReturnKeeps(s: State, pid: nat, rec: Option<Caps>)
    requires Inv(s) && pid in s.callers && !InBody(s.callers[pid].at)
    requires ReturnOk(s, Return(s.callers[pid].key, rec))
    ensures Inv(Returned(s, pid, rec))
  {
    var t := Returned(s, pid, rec);
    forall k ensures KeyOk(t, k) {
      assert KeyOk(s, k);
    }
    forall p | p in t.callers ensures CallerOk(t, p) {
      assert CallerOk(s, p);
    }
    forall i | 0 <= i < |t.log| ensures ReturnOk(t, t.log[i]) {
      if i < |s.log| {
        assert ReturnOk(s, s.log[i]);
      }
    }
  }

  lemma GetKeeps(s: State, a: Action)
    requires Inv(s) && Enabled(s, a) && (a.FirstGet? || a.Reread?)
    ensures Inv(Next(s, a))
  {
    var key := s.callers[a.pid].key;
    var (t, rec) := Fetched(s, key);
    FetchKeeps(s, key);
    assert CallerOk(t, a.pid) && KeyOk(t, key);
    if a.Reread? || rec.Some? {
      ReturnKeeps(t, a.pid, rec);
    } else {
      MissKeeps(t, a.pid);
    }
  }

  lemma MissKeeps(s: State, pid: nat)
    requires Inv(s) && StandsAt(s, pid, AtGet) && s.cache.loaded
    requires s.callers[pid].key in s.seeded || !Live(s, s.callers[pid].key)
    ensures Inv(Moved(s, pid, AtOnce))
  {
    var t := Moved(s, pid, AtOnce);
    forall k ensures KeyOk(t, k) {
      assert KeyOk(s, k);
    }
    forall p | p in t.callers ensures CallerOk(t, p) {
      assert CallerOk(s, p);
    }
    forall i | 0 <= i < |t.log| ensures ReturnOk(t, t.log[i]) {
      assert ReturnOk(s, s.log[i]);
    }
  }

  lemma StepKeeps(s: State, a: Action)
    requires Inv(s) && Enabled(s, a)
    ensures Inv(Next(s, a))
  {
    match a {
      case Tick(now) => TickKeeps(s, now);
      case Seed(key, rec, writes) => SeedKeeps(s, key, rec, writes);
      case StoreRecord(pid, writes) => StoreKeeps(s, pid, writes);
      case Peek(key) => FetchKeeps(s, key);
      case FirstGet(_) => GetKeeps(s, a);
      case Reread(_) => GetKeeps(s, a);
      case _ => OnceKeeps(s, a);
    }
  }

  lemma {:induction false} RunKeeps(s: State, actions: seq<Action>)
    requires Inv(s) && Runnable(s, actions)
    ensures Inv(Run(s, actions))
    decreases |actions|
  {
    if actions != [] {
      StepKeeps(s, actions[0]);
      RunKeeps(Next(s, actions[0]), actions[1..]);
    }
  }

  // ---- the promises --------------------------------------------------------

  /** Single flight: in every interleaving of any number of callers on any keys, over any
      stretch of time, the probe body runs at most once per key. */
  lemma ProbedAtMostOnce(file: Option<map<string, Caps>>, dir: bool, now: int, actions: seq<Action>, key: string)
    requires Runnable(Cold(file, dir, now), actions)
    ensures Run(Cold(file, dir, now), actions).ran[key] <= 1
  {
    RunKeeps(Cold(file, dir, now), actions);
    assert KeyOk(Run(Cold(file, dir, now), actions), key);
  }

  /** Agreement: while the first record of a key is unexpired, and nobody seeds or demotes that
      key, every finished call returned that very record; no call came back empty-handed. */
  lemma CallersAgree(file: Option<map<string, Caps>>, dir: bool, now: int, actions: seq<Action>, i: nat)
    requires Runnable(Cold(file, dir, now), actions)
    requires var s := Run(Cold(file, dir, now), actions);
             i < |s.log| && s.log[i].key !in s.seeded
    ensures var s := Run(Cold(file, dir, now), actions);
            s.log[i].key in s.first && (Live(s, s.log[i].key) ==> s.log[i].rec == Some(s.first[s.log[i].key]))
  {
    RunKeeps(Cold(file, dir, now), actions);
    assert ReturnOk(Run(Cold(file, dir, now), actions), Run(Cold(file, dir, now), actions).log[i]);
  }

  lemma PutConfirmed(c: Cache, key: string, v: Caps, now: int, writes: Writing, file: Option<map<string, Caps>>)
    requires c.file == file || Confirmed(c.file)
    ensures Put(c, key, v, now, writes).file == file || Confirmed(Put(c, key, v, now, writes).file)
  {
  }

  lemma DiskStep(s: State, a: Action, file: Option<map<string, Caps>>)
    requires Enabled(s, a) && (s.cache.file == file || Confirmed(s.cache.file))
    ensures Next(s, a).cache.file == file || Confirmed(Next(s, a).cache.file)
  {
    match a {
      case StoreRecord(pid, writes) =>
        PutConfirmed(s.cache, s.callers[pid].key, s.callers[pid].at.rec, s.now, writes, file);
      case Seed(key, rec, writes) => PutConfirmed(s.cache, key, rec, s.now, writes, file);
      case _ =>
    }
  }

  /** The disk is either as it was found or holds only confirmed records. */
  lemma {:induction false} DiskStaysConfirmed(s: State, actions: seq<Action>, file: Option<map<string, Caps>>)
    requires Runnable(s, actions) && (s.cache.file == file || Confirmed(s.cache.file))
    ensures Run(s, actions).cache.file == file || Confirmed(Run(s, actions).cache.file)
    decreases |actions|
  {
    if actions != [] {
      DiskStep(s, actions[0], file);
      DiskStaysConfirmed(Next(s, actions[0]), actions[1..], file);
    }
  }

  // ---- after the record expires --------------------------------------------

  /** The Once of a key is spent and nothing good is in memory. */
  predicate Dead(s: State, key: string) {
    && s.cache.loaded && OnceOf(s, key) == Spent
    && (key in s.cache.mem ==> Expired(s.cache.mem[key], s.now))
  }

  /** Dead keys stay dead: no later call probes again, and each one that finishes returns the
      zero record, until somebody seeds the key. */
  lemma DeadStep(s: State, a: Action, key: string)
    requires Inv(s) && Enabled(s, a) && Dead(s, key) && !(a.Seed? && a.key == key)
    ensures Dead(Next(s, a), key) && Next(s, a).ran[key] == s.ran[key]
    ensures |Next(s, a).log| >= |s.log|
    ensures forall i :: |s.log| <= i < |Next(s, a).log| && Next(s, a).log[i].key == key ==>
              Next(s, a).log[i].rec == None
  {
    if !a.Tick? && !a.Begin? && !a.Seed? && !a.Peek? {
      assert CallerOk(s, a.pid);
    }
  }

  lemma {:induction false} DeadForever(s: State, actions: seq<Action>, key: string)
    requires Inv(s) && Runnable(s, actions) && Dead(s, key)
    requires forall a :: a in actions && a.Seed? ==> a.key != key
    ensures var t := Run(s, actions);
            && Dead(t, key) && t.ran[key] == s.ran[key] && |t.log| >= |s.log| && t.log[..|s.log|] == s.log
            && forall i :: |s.log| <= i < |t.log| && t.log[i].key == key ==> t.log[i].rec == None
    decreases |actions|
  {
    if actions != [] {
      var next := Next(s, actions[0]);
      assert actions[0] in actions;
      DeadStep(s, actions[0], key);
      LogGrows(s, actions[0]);
      StepKeeps(s, actions[0]);
      DeadForever(next, actions[1..], key);
    }
  }

  lemma LogGrows(s: State, a: Action)
    requires Enabled(s, a)
    ensures s.log <= Next(s, a).log
  {
  }

  // ---- one call on its own -------------------------------------------------

  /** One call to Probe from start to end with nobody in between; rec is what its probe body
      would find and writes what becomes of the file. */
  function Alone(s: State, pid: nat, rec: Caps, writes: Writing): seq<Action>
    requires StandsAt(s, pid, AtGet)
  {
    var s1 := Next(s, FirstGet(pid));
    if pid !in s1.callers then [FirstGet(pid)]
    else if OnceOf(s, s.callers[pid].key).Spent? then [FirstGet(pid), TakeOnce(pid), Skip(pid), Reread(pid)]
    else [FirstGet(pid), TakeOnce(pid), Enter(pid), Answer(pid, rec), StoreRecord(pid, writes), Finish(pid),
          Reread(pid)]
  }

  lemma RunStep(s: State, a: Action, rest: seq<Action>)
    requires Enabled(s, a) && Runnable(Next(s, a), rest)
    ensures Runnable(s, [a] + rest) && Run(s, [a] + rest) == Run(Next(s, a), rest)
  {
    assert ([a] + rest)[1..] == rest;
  }

  lemma {:induction false} RunConcat(s: State, a: seq<Action>, b: seq<Action>)
    requires Runnable(s, a) && Runnable(Run(s, a), b)
    ensures Runnable(s, a + b) && Run(s, a + b) == Run(Run(s, a), b)
    decreases |a|
  {
    if a == [] {
      assert a + b == b;
    } else {
      RunConcat(Next(s, a[0]), a[1..], b);
      assert a + b == [a[0]] + (a[1..] + b);
      RunStep(s, a[0], a[1..] + b);
    }
  }

  lemma RunOne(s: State, a: Action)
    requires Enabled(s, a)
    ensures Runnable(s, [a]) && Run(s, [a]) == Next(s, a)
  {
    RunStep(s, a, []);
    assert [a] + [] == [a];
  }

  lemma RunFour(s0: State, s1: State, s2: State, s3: State, s4: State, a: seq<Action>)
    requires |a| == 4
    requires Enabled(s0, a[0]) && s1 == Next(s0, a[0]) && Enabled(s1, a[1]) && s2 == Next(s1, a[1])
    requires Enabled(s2, a[2]) && s3 == Next(s2, a[2]) && Enabled(s3, a[3]) && s4 == Next(s3, a[3])
    ensures Runnable(s0, a) && Run(s0, a) == s4
  {
    RunOne(s3, a[3]);
    RunStep(s2, a[2], [a[3]]);
    RunStep(s1, a[1], [a[2], a[3]]);
    RunStep(s0, a[0], [a[1], a[2], a[3]]);
    assert [a[2]] + [a[3]] == [a[2], a[3]];
    assert [a[1]] + [a[2], a[3]] == [a[1], a[2], a[3]];
    assert a == [a[0]] + [a[1], a[2], a[3]];
  }

  /** The state a lone call ends in, and that it can run to its end. */
  lemma RereadAlone(s: State, pid: nat)
    requires StandsAt(s, pid, AtReread)
    ensures Runnable(s, [Reread(pid)])
    ensures Run(s, [Reread(pid)]) == Returned(Fetched(s, s.callers[pid].key).0, pid, Fetched(s, s.callers[pid].key).1)
  {
    RunStep(s, Reread(pid), []);
    assert [Reread(pid)] + [] == [Reread(pid)];
  }

  /** The probe body and what follows, from Do on, with an unused Once. */
  lemma BodyAlone(s: State, pid: nat, rec: Caps, writes: Writing)
    requires StandsAt(s, pid, AtDo) && OnceOf(s, s.callers[pid].key) == Idle && !Expired(rec, s.now) && s.cache.loaded
    ensures var actions := [Enter(pid), Answer(pid, rec), StoreRecord(pid, writes), Finish(pid), Reread(pid)];
            && Runnable(s, actions)
            && Run(s, actions).log == s.log + [Return(s.callers[pid].key, Some(rec))]
  {
    var t := BodyStored(s, pid, rec, writes);
    RereadAlone(t, pid);
    RunConcat(s, [Enter(pid), Answer(pid, rec), StoreRecord(pid, writes), Finish(pid)], [Reread(pid)]);
    assert [Enter(pid), Answer(pid, rec), StoreRecord(pid, writes), Finish(pid)] + [Reread(pid)]
        == [Enter(pid), Answer(pid, rec), StoreRecord(pid, writes), Finish(pid), Reread(pid)];
  }

  lemma BodyStored(s: State, pid: nat, rec: Caps, writes: Writing) returns (t: State)
    requires StandsAt(s, pid, AtDo) && OnceOf(s, s.callers[pid].key) == Idle && s.cache.loaded
    ensures var actions := [Enter(pid), Answer(pid, rec), StoreRecord(pid, writes), Finish(pid)];
            Runnable(s, actions) && Run(s, actions) == t
    ensures StandsAt(t, pid, AtReread) && t.callers[pid].key == s.callers[pid].key && t.log == s.log && t.now == s.now
    ensures var key := s.callers[pid].key; t.cache.loaded && key in t.cache.mem && t.cache.mem[key] == rec
  {
    var s1 := Next(s, Enter(pid));
    var s2 := Next(s1, Answer(pid, rec));
    var s3 := Next(s2, StoreRecord(pid, writes));
    t := Next(s3, Finish(pid));
    RunFour(s, s1, s2, s3, t, [Enter(pid), Answer(pid, rec), StoreRecord(pid, writes), Finish(pid)]);
  }

  lemma SkipAlone(s: State, pid: nat)
    requires StandsAt(s, pid, AtDo) && OnceOf(s, s.callers[pid].key) == Spent && s.cache.loaded
    requires s.callers[pid].key !in s.cache.mem
    ensures Runnable(s, [Skip(pid), Reread(pid)])
    ensures Run(s, [Skip(pid), Reread(pid)]).log == s.log + [Return(s.callers[pid].key, None)]
  {
    RereadAlone(Next(s, Skip(pid)), pid);
    RunStep(s, Skip(pid), [Reread(pid)]);
    assert [Skip(pid)] + [Reread(pid)] == [Skip(pid), Reread(pid)];
  }

  /** A lone call that found nothing in memory. */
  lemma MissAlone(s: State, pid: nat, rec: Caps, writes: Writing)
    requires Inv(s) && StandsAt(s, pid, AtGet) && !OnceOf(s, s.callers[pid].key).Running? && !Expired(rec, s.now)
    requires Fetched(s, s.callers[pid].key).1 == None
    ensures Runnable(s, Alone(s, pid, rec, writes))
    ensures var key, t := s.callers[pid].key, Run(s, Alone(s, pid, rec, writes));
            t.log == s.log + [Return(key, if OnceOf(s, key).Spent? then None else Some(rec))]
  {
    var key := s.callers[pid].key;
    var s1 := Next(s, FirstGet(pid));
    var s2 := Next(s1, TakeOnce(pid));
    var rest := if OnceOf(s, key).Spent? then [Skip(pid), Reread(pid)]
                else [Enter(pid), Answer(pid, rec), StoreRecord(pid, writes), Finish(pid), Reread(pid)];
    if OnceOf(s, key).Spent? {
      SkipAlone(s2, pid);
    } else {
      BodyAlone(s2, pid, rec, writes);
    }
    RunStep(s1, TakeOnce(pid), rest);
    RunStep(s, FirstGet(pid), [TakeOnce(pid)] + rest);
    assert Alone(s, pid, rec, writes) == [FirstGet(pid)] + ([TakeOnce(pid)] + rest);
  }

  /** A call on its own, with an endpoint that answers now, returns the zero record exactly when
      the key is dead: its record has expired and its one probe has been spent. */
  lemma BlankIffDead(s: State, pid: nat, rec: Caps, writes: Writing)
    requires Inv(s) && StandsAt(s, pid, AtGet) && !OnceOf(s, s.callers[pid].key).Running? && !Expired(rec, s.now)
    ensures Runnable(s, Alone(s, pid, rec, writes))
    ensures var key, t := s.callers[pid].key, Run(s, Alone(s, pid, rec, writes));
            && |t.log| == |s.log| + 1 && t.log[|s.log|].key == key
            && (t.log[|s.log|].rec == None <==> Dead(s, key))
  {
    var key := s.callers[pid].key;
    assert KeyOk(s, key);
    if Fetched(s, key).1.Some? {
      RunOne(s, FirstGet(pid));
    } else {
      MissAlone(s, pid, rec, writes);
    }
  }

  // ---- a dead key can be reached -------------------------------------------

  /** The steps of callers and of the clock. */
  ghost predicate NobodySeeds(actions: seq<Action>) { forall a :: a in actions ==> !a.Seed? && !a.Peek? }

  /** A cold call on a key the file does not know gets to its probe body. */
  lemma ToProbe(file: Option<map<string, Caps>>, dir: bool, now: int, key: string) returns (head: seq<Action>)
    requires file.Some? ==> key !in file.value
    ensures Runnable(Cold(file, dir, now), head) && NobodySeeds(head)
    ensures var t := Run(Cold(file, dir, now), head);
            t.now == now && t.cache.loaded && t.callers == map[0 := Caller(key, Probing)]
  {
    var s0 := Cold(file, dir, now);
    var s1 := Next(s0, Begin(0, key));
    var s2 := Next(s1, FirstGet(0));
    var s3 := Next(s2, TakeOnce(0));
    head := [Begin(0, key), FirstGet(0), TakeOnce(0), Enter(0)];
    RunFour(s0, s1, s2, s3, Next(s3, Enter(0)), head);
  }

  /** The answer is stored and a week passes. */
  lemma ToDead(s: State, key: string, rec: Caps, writes: Writing) returns (tail: seq<Action>)
    requires s.cache.loaded && s.callers == map[0 := Caller(key, Probing)] && rec.probed == Some(s.now)
    ensures Runnable(s, tail) && NobodySeeds(tail) && Dead(Run(s, tail), key)
  {
    var s1 := Next(s, Answer(0, rec));
    var s2 := Next(s1, StoreRecord(0, writes));
    var s3 := Next(s2, Finish(0));
    var week := Tick(s.now + CAPABILITY_TTL + 1);
    tail := [Answer(0, rec), StoreRecord(0, writes), Finish(0), week];
    RunFour(s, s1, s2, s3, Next(s3, week), tail);
  }

  /** Dead keys are not hypothetical: any cold process whose file does not know the key reaches one
      by a single answered probe and a week of waiting. With BlankIffDead, a call that arrives then
      is handed the zero record although its endpoint would answer. */
  lemma DeadReachable(file: Option<map<string, Caps>>, dir: bool, now: int, key: string, rec: Caps, writes: Writing)
    returns (actions: seq<Action>)
    requires file.Some? ==> key !in file.value
    requires rec.probed == Some(now)
    ensures Runnable(Cold(file, dir, now), actions) && NobodySeeds(actions)
    ensures Dead(Run(Cold(file, dir, now), actions), key)
  {
    var head := ToProbe(file, dir, now, key);
    var tail := ToDead(Run(Cold(file, dir, now), head), key, rec, writes);
    RunConcat(Cold(file, dir, now), head, tail);
    actions := head + tail;
  }

  // ---- unconfirmed records and the file ------------------------------------

  /** No probe of this key, at any step of the run, brings back a confirmed record: each was cut
      short by its deadline or found nobody. */
  ghost predicate NeverConfirmed(s: State, actions: seq<Action>, key: string)
    requires Runnable(s, actions)
    decreases |actions|
  {
    actions == [] ||
    (var a := actions[0];
     && (a.Answer? && s.callers[a.pid].key == key ==> a.rec.probed.None?)
     && NeverConfirmed(Next(s, a), actions[1..], key))
  }

  /** Until the key is seeded or demoted, whatever memory holds of it is unconfirmed and the file
      does not know it. */
  ghost predicate OffFile(s: State, key: string) {
    key in s.seeded ||
    (&& (key in s.cache.mem ==> s.cache.mem[key].probed.None?)
     && (s.cache.file.Some? ==> key !in s.cache.file.value)
     && (forall pid :: pid in s.callers && s.callers[pid].key == key && s.callers[pid].at.Putting? ==>
           s.callers[pid].at.rec.probed.None?))
  }

  lemma FetchOffFile(s: State, key: string, other: string)
    requires OffFile(s, key)
    ensures OffFile(Fetched(s, other).0, key) && Fetched(s, other).0.callers == s.callers
    ensures Fetched(s, other).0.seeded == s.seeded
  {
  }

  lemma StoreOffFile(s: State, key: string, other: string, rec: Caps, writes: Writing)
    requires OffFile(s, key) && (other == key ==> key in s.seeded || rec.probed.None?)
    ensures OffFile(Stored(s, other, rec, writes), key)
  {
  }

  lemma OffFileStep(s: State, a: Action, key: string)
    requires Enabled(s, a) && OffFile(s, key)
    requires a.Answer? && s.callers[a.pid].key == key ==> a.rec.probed.None?
    ensures OffFile(Next(s, a), key)
  {
    match a {
      case FirstGet(pid) => FetchOffFile(s, key, s.callers[pid].key);
      case Reread(pid) => FetchOffFile(s, key, s.callers[pid].key);
      case Peek(other) => FetchOffFile(s, key, other);
      case StoreRecord(pid, writes) => StoreOffFile(s, key, s.callers[pid].key, s.callers[pid].at.rec, writes);
      case Seed(other, rec, writes) =>
        if other != key {
          StoreOffFile(s, key, other, rec, writes);
        }
      case _ =>
    }
  }

  /** Over every interleaving: a key the file did not know, whose probes never brought back a
      confirmed record, is in the file only once somebody has seeded or demoted it. */
  lemma {:induction false} OnFileOnlyIfSeeded(s: State, actions: seq<Action>, key: string)
    requires Runnable(s, actions) && OffFile(s, key) && NeverConfirmed(s, actions, key)
    ensures var t := Run(s, actions);
            OffFile(t, key) && (t.cache.file.Some? && key in t.cache.file.value ==> key in t.seeded)
    decreases |actions|
  {
    if actions != [] {
      OffFileStep(s, actions[0], key);
      OnFileOnlyIfSeeded(Next(s, actions[0]), actions[1..], key);
    }
  }

  lemma ColdOffFile(file: Option<map<string, Caps>>, dir: bool, now: int, key: string)
    requires file.Some? ==> key !in file.value
    ensures OffFile(Cold(file, dir, now), key)
  {
  }

  /** Memory and file hold this stamped record. */
  ghost predicate OnFile(s: State, key: string, rec: Caps) {
    && rec.probed.Some? && s.cache.loaded && s.cache.dir
    && key in s.cache.mem && s.cache.mem[key] == rec
    && s.cache.file.Some? && key in s.cache.file.value && s.cache.file.value[key] == rec
  }

  /** Nobody stores another record under the key, and no write fails halfway. */
  ghost predicate LeftAlone(s: State, actions: seq<Action>, key: string)
    requires Runnable(s, actions)
    decreases |actions|
  {
    actions == [] ||
    (var a := actions[0];
     && (a.Seed? ==> a.key != key && a.writes != Torn)
     && (a.StoreRecord? ==> s.callers[a.pid].key != key && a.writes != Torn)
     && LeftAlone(Next(s, a), actions[1..], key))
  }

  lemma {:induction false} ClockForward(s: State, actions: seq<Action>)
    requires Runnable(s, actions)
    ensures Run(s, actions).now >= s.now
    decreases |actions|
  {
    if actions != [] {
      ClockForward(Next(s, actions[0]), actions[1..]);
    }
  }

  lemma OnFileStep(s: State, a: Action, key: string, rec: Caps)
    requires Enabled(s, a) && OnFile(s, key, rec) && !Expired(rec, s.now)
    requires a.Seed? ==> a.key != key && a.writes != Torn
    requires a.StoreRecord? ==> s.callers[a.pid].key != key && a.writes != Torn
    ensures OnFile(Next(s, a), key, rec)
  {
  }

  /** The converse: a demotion or a seed that is stamped, in a process with a directory and a file
      that can be written, puts the key on the file, and there it stays for its whole TTL unless
      another record is stored under the key or a later write tears the file. */
  lemma {:induction false} SeedStaysOnFile(s: State, actions: seq<Action>, key: string, rec: Caps)
    requires Runnable(s, actions) && actions != [] && actions[0] == Seed(key, rec, Whole)
    requires s.cache.dir && rec.probed.Some? && LeftAlone(Next(s, actions[0]), actions[1..], key)
    requires !Expired(rec, Run(s, actions).now)
    ensures OnFile(Run(s, actions), key, rec)
  {
    SeededOnFile(s, key, rec);
    StaysOnFile(Next(s, actions[0]), actions[1..], key, rec);
  }

  lemma SeededOnFile(s: State, key: string, rec: Caps)
    requires s.cache.dir && rec.probed.Some?
    ensures OnFile(Next(s, Seed(key, rec, Whole)), key, rec)
  {
  }

  lemma {:induction false} StaysOnFile(s: State, actions: seq<Action>, key: string, rec: Caps)
    requires Runnable(s, actions) && OnFile(s, key, rec) && LeftAlone(s, actions, key)
    requires !Expired(rec, Run(s, actions).now)
    ensures OnFile(Run(s, actions), key, rec)
    decreases |actions|
  {
    if actions != [] {
      ClockForward(s, actions);
      OnFileStep(s, actions[0], key, rec);
      StaysOnFile(Next(s, actions[0]), actions[1..], key, rec);
    }
  }
}
