// Creation on first use behind a read-write lock: the breaker registry and the client pool.
module Registry {
  // --- The two registries, run by one caller at a time ---

  class Breaker {
    const name: string

    constructor (name: string)
      ensures this.name == name
    {
      this.name := name;
    }
  }

  function BreakerKey(provider: string, model: string): string { provider + ":" + model }

  class Breakers {
    var breakers: map<string, Breaker>

    constructor ()
      ensures breakers == map[]
    {
      breakers := map[];
    }

    ghost predicate Named()
      reads this
    {
      forall k :: k in breakers ==> breakers[k].name == k
    }

    method For(provider: string, model: string) returns (cb: Breaker)
      requires Named()
      modifies this
      ensures Named()
      ensures BreakerKey(provider, model) in breakers && breakers[BreakerKey(provider, model)] == cb
      ensures forall k :: k in old(breakers) ==> k in breakers && breakers[k] == old(breakers)[k]
      ensures breakers.Keys == old(breakers).Keys + {BreakerKey(provider, model)}
      ensures BreakerKey(provider, model) !in old(breakers) ==> fresh(cb)
    {
      var key := BreakerKey(provider, model);
      if key in breakers { return breakers[key]; }
      cb := new Breaker(key);
      breakers := breakers[key := cb];
    }
  }

  function MaxInt(a: int, def: int): int { if a <= 0 then def else a }

  datatype ProviderConfig = ProviderConfig(timeoutSeconds: int, maxIdleConns: int, maxConnsPerHost: int)

  class Client {
    const timeoutSeconds: int
    const maxIdleConns: int
    const maxConnsPerHost: int

    constructor (cfg: ProviderConfig)
      ensures BuiltFrom(cfg)
    {
      timeoutSeconds := MaxInt(cfg.timeoutSeconds, 60);
      maxIdleConns := MaxInt(cfg.maxIdleConns, 100);
      maxConnsPerHost := MaxInt(cfg.maxConnsPerHost, 50);
    }

    // Each limit is the configured one where that is positive, and its default elsewhere.
    predicate BuiltFrom(cfg: ProviderConfig) {
      && timeoutSeconds == (if cfg.timeoutSeconds > 0 then cfg.timeoutSeconds else 60)
      && maxIdleConns == (if cfg.maxIdleConns > 0 then cfg.maxIdleConns else 100)
      && maxConnsPerHost == (if cfg.maxConnsPerHost > 0 then cfg.maxConnsPerHost else 50)
    }

    lemma LimitsArePositive(cfg: ProviderConfig)
      requires BuiltFrom(cfg)
      ensures timeoutSeconds > 0 && maxIdleConns > 0 && maxConnsPerHost > 0
    {
    }
  }

  class ClientPool {
    const providers: map<string, ProviderConfig>
    var clients: map<string, Client>

    constructor (providers: map<string, ProviderConfig>)
      ensures this.providers == providers && clients == map[] && Configured()
    {
      this.providers := providers;
      clients := map[];
    }

    // Every client is built from its provider's configuration.
    ghost predicate Configured()
      reads this
    {
      forall p :: p in clients ==>
        clients[p].BuiltFrom(if p in providers then providers[p] else ProviderConfig(0, 0, 0))
    }

    // An unknown provider gets the zero configuration.
    method For(provider: string) returns (c: Client)
      requires Configured()
      modifies this
      ensures Configured()
      ensures provider in clients && clients[provider] == c
      ensures forall k :: k in old(clients) ==> k in clients && clients[k] == old(clients)[k]
      ensures clients.Keys == old(clients).Keys + {provider}
      ensures provider !in old(clients) ==> fresh(c)
    {
      if provider in clients { return clients[provider]; }
      var cfg := if provider in providers then providers[provider] else ProviderConfig(0, 0, 0);
      c := new Client(cfg);
      clients := clients[provider := c];
    }
  }

  // --- When two breakers share a key ---

  // `long` is `short` extended by a colon and something that the other model starts with.
  ghost predicate Shifted(shortProvider: string, longModel: string, longProvider: string, shortModel: string) {
    exists x :: Shift(x, shortProvider, longModel, longProvider, shortModel)
  }

  predicate Shift(x: string, shortProvider: string, longModel: string, longProvider: string, shortModel: string) {
    longProvider == shortProvider + ":" + x && longModel == x + ":" + shortModel
  }

  // Two pairs share a key exactly when they are equal or a colon moved between them.
  lemma KeyCollidesIff(p1: string, m1: string, p2: string, m2: string)
    ensures BreakerKey(p1, m1) == BreakerKey(p2, m2)
            <==> (p1 == p2 && m1 == m2) || Shifted(p1, m1, p2, m2) || Shifted(p2, m2, p1, m1)
  {
    if BreakerKey(p1, m1) == BreakerKey(p2, m2) {
      if |p1| == |p2| {
        SameLength(p1, m1, p2, m2);
      } else if |p1| < |p2| {
        FindShift(p1, m1, p2, m2);
      } else {
        FindShift(p2, m2, p1, m1);
      }
    }
    forall x | Shift(x, p1, m1, p2, m2)
      ensures BreakerKey(p1, m1) == BreakerKey(p2, m2)
    {
      assert p1 + ":" + (x + ":" + m2) == (p1 + ":" + x) + ":" + m2;
    }
    forall x | Shift(x, p2, m2, p1, m1)
      ensures BreakerKey(p1, m1) == BreakerKey(p2, m2)
    {
      assert p2 + ":" + (x + ":" + m1) == (p2 + ":" + x) + ":" + m1;
    }
  }

  lemma SameLength(p1: string, m1: string, p2: string, m2: string)
    requires BreakerKey(p1, m1) == BreakerKey(p2, m2) && |p1| == |p2|
    ensures p1 == p2 && m1 == m2
  {
    var k1, k2 := BreakerKey(p1, m1), BreakerKey(p2, m2);
    assert k1[..|p1|] == p1 && k2[..|p2|] == p2;
    assert k1[|p1| + 1..] == m1 && k2[|p2| + 1..] == m2;
  }

  lemma FindShift(p1: string, m1: string, p2: string, m2: string)
    requires BreakerKey(p1, m1) == BreakerKey(p2, m2) && |p1| < |p2|
    ensures Shifted(p1, m1, p2, m2)
  {
    var key := BreakerKey(p1, m1);
    var x := key[|p1| + 1..|p2|];
    assert p2 == key[..|p2|];
    assert key[..|p1|] == p1 && key[|p1|] == ':' && key[|p2|] == ':';
    assert p2 == p1 + ":" + x;
    assert m1 == key[|p1| + 1..];
    assert m2 == key[|p2| + 1..];
    assert m1 == x + ":" + m2;
    assert Shift(x, p1, m1, p2, m2);
  }

  // Providers without a colon never share a key across models.
  lemma KeyInjective(p1: string, m1: string, p2: string, m2: string)
    requires ':' !in p1 && ':' !in p2
    ensures BreakerKey(p1, m1) == BreakerKey(p2, m2) <==> p1 == p2 && m1 == m2
  {
    KeyCollidesIff(p1, m1, p2, m2);
    forall x
      ensures !Shift(x, p1, m1, p2, m2) && !Shift(x, p2, m2, p1, m1)
    {
      assert (p1 + ":" + x)[|p1|] == ':' && (p2 + ":" + x)[|p2|] == ':';
    }
  }

  lemma ColonsCollide()
    ensures BreakerKey("a:b", "c") == BreakerKey("a", "b:c")
  {
  }
}

// Concurrent calls of For, one lock operation or map access at a time. The breaker registry
// is the instance with provider:model keys, the client pool that with provider keys.
module DoubleCheckedCreation {
  import opened Wrappers

  // Objects are numbered in the order of their creation.
  datatype Pc =
    | WantRead
    | Reading
    | Seen(found: Option<nat>)
    | WantWrite
    | Checking
    | Missing
    | Created(obj: nat)
    | Leaving(obj: nat)

  datatype Thread = Thread(key: string, pc: Pc)

  datatype Returned = Returned(key: string, obj: nat)

  datatype State = State(entries: map<string, nat>, created: seq<string>, readers: set<nat>, writer: Option<nat>,
                         threads: map<nat, Thread>, returned: seq<Returned>)

  const INITIAL := State(map[], [], {}, None, map[], [])

  datatype Action =
    | Call(t: nat, key: string)
    | RLock(t: nat)
    | Look(t: nat)
    | RUnlock(t: nat)
    | Lock(t: nat)
    | Recheck(t: nat)
    | Create(t: nat)
    | Store(t: nat)
    | Unlock(t: nat)

  function Moved(s: State, t: nat, pc: Pc): State
    requires t in s.threads
  {
    s.(threads := s.threads[t := s.threads[t].(pc := pc)])
  }

  function Return(s: State, t: nat, obj: nat): State
    requires t in s.threads
  {
    s.(threads := s.threads - {t}, returned := s.returned + [Returned(s.threads[t].key, obj)])
  }

  function Lookup(s: State, key: string): Option<nat> {
    if key in s.entries then Some(s.entries[key]) else None
  }

  predicate At(s: State, t: nat, a: Action) {
    t in s.threads &&
    match s.threads[t].pc
    case WantRead => a.RLock? && s.writer.None?
    case Reading => a.Look?
    case Seen(_) => a.RUnlock?
    case WantWrite => a.Lock? && s.writer.None? && s.readers == {}
    case Checking => a.Recheck?
    case Missing => a.Create?
    case Created(_) => a.Store?
    case Leaving(_) => a.Unlock?
  }

  predicate Enabled(s: State, a: Action) {
    if a.Call? then a.t !in s.threads else At(s, a.t, a)
  }

  function After(s: State, a: Action): State
    requires Enabled(s, a)
  {
    match a
    case Call(t, key) => s.(threads := s.threads[t := Thread(key, WantRead)])
    case RLock(t) => Moved(s, t, Reading).(readers := s.readers + {t})
    case Look(t) => Moved(s, t, Seen(Lookup(s, s.threads[t].key)))
    case RUnlock(t) =>
      var found := s.threads[t].pc.found;
      (if found.Some? then Return(s, t, found.value) else Moved(s, t, WantWrite)).(readers := s.readers - {t})
    case Lock(t) => Moved(s, t, Checking).(writer := Some(t))
    case Recheck(t) =>
      var found := Lookup(s, s.threads[t].key);
      Moved(s, t, if found.Some? then Leaving(found.value) else Missing)
    case Create(t) => Moved(s, t, Created(|s.created|)).(created := s.created + [s.threads[t].key])
    case Store(t) =>
      var obj := s.threads[t].pc.obj;
      Moved(s, t, Leaving(obj)).(entries := s.entries[s.threads[t].key := obj])
    case Unlock(t) => Return(s, t, s.threads[t].pc.obj).(writer := None)
  }

  function Step(s: State, a: Action): State { if Enabled(s, a) then After(s, a) else s }

  function Run(s: State, actions: seq<Action>): State
    decreases |actions|
  {
    if actions == [] then s else Run(Step(s, actions[0]), actions[1..])
  }

  // --- What every step keeps ---

  predicate HoldsRead(pc: Pc) { pc.Reading? || pc.Seen? }

  predicate HoldsWrite(pc: Pc) { pc.Checking? || pc.Missing? || pc.Created? || pc.Leaving? }

  // The object is the one in the map.
  predicate Registered(s: State, key: string, obj: nat) { key in s.entries && s.entries[key] == obj }

  ghost predicate ThreadInv(s: State, t: nat, th: Thread) {
    && (HoldsRead(th.pc) <==> t in s.readers)
    && (HoldsWrite(th.pc) <==> s.writer == Some(t))
    && match th.pc
       case Seen(found) => found.Some? ==> Registered(s, th.key, found.value)
       case Missing => th.key !in s.entries
       case Created(obj) => th.key !in s.entries && obj < |s.created| && s.created[obj] == th.key
       case Leaving(obj) => Registered(s, th.key, obj)
       case _ => true
  }

  // The object a writer has created but not stored yet.
  predicate Pending(s: State, n: nat) {
    && s.writer.Some? && s.writer.value in s.threads
    && s.threads[s.writer.value].pc == Created(n)
  }

  // Everything created is in the map under its key, or about to be.
  predicate Accounted(s: State, n: nat)
    requires n < |s.created|
  {
    Registered(s, s.created[n], n) || Pending(s, n)
  }

  ghost predicate Inv(s: State) {
    && (s.writer.Some? ==> s.readers == {} && s.writer.value in s.threads)
    && (forall t :: t in s.threads ==> ThreadInv(s, t, s.threads[t]))
    && (forall t :: t in s.readers ==> t in s.threads)
    && (forall k :: k in s.entries ==> s.entries[k] < |s.created| && s.created[s.entries[k]] == k)
    && (forall n :: 0 <= n < |s.created| ==> Accounted(s, n))
    && (forall i :: 0 <= i < |s.returned| ==> Registered(s, s.returned[i].key, s.returned[i].obj))
  }

  ghost predicate Keeps(s: State, s2: State) {
    && (forall k :: k in s.entries ==> k in s2.entries && s2.entries[k] == s.entries[k])
    && s.created <= s2.created
    && s.returned <= s2.returned
  }

  lemma ThreadStep(s: State, a: Action, t: nat)
    requires Inv(s) && t in Step(s, a).threads
    ensures ThreadInv(Step(s, a), t, Step(s, a).threads[t])
  {
    if Enabled(s, a) && !a.Call? { assert ThreadInv(s, a.t, s.threads[a.t]); }
    if t in s.threads { assert ThreadInv(s, t, s.threads[t]); }
  }

  lemma AccountedStep(s: State, a: Action, n: nat)
    requires Inv(s) && n < |Step(s, a).created|
    ensures Accounted(Step(s, a), n)
  {
    if Enabled(s, a) && !a.Call? { assert ThreadInv(s, a.t, s.threads[a.t]); }
    if n < |s.created| { assert Accounted(s, n); }
  }

  lemma LockStep(s: State, a: Action)
    requires Inv(s)
    ensures Keeps(s, Step(s, a))
    ensures
      var s2 := Step(s, a);
      && (s2.writer.Some? ==> s2.readers == {} && s2.writer.value in s2.threads)
      && (forall t :: t in s2.readers ==> t in s2.threads)
      && (forall k :: k in s2.entries ==> s2.entries[k] < |s2.created| && s2.created[s2.entries[k]] == k)
      && (forall i :: 0 <= i < |s2.returned| ==> Registered(s2, s2.returned[i].key, s2.returned[i].obj))
  {
    if Enabled(s, a) && !a.Call? { assert ThreadInv(s, a.t, s.threads[a.t]); }
  }

  lemma InvStep(s: State, a: Action)
    requires Inv(s)
    ensures Inv(Step(s, a)) && Keeps(s, Step(s, a))
  {
    var s2 := Step(s, a);
    LockStep(s, a);
    forall t | t in s2.threads
      ensures ThreadInv(s2, t, s2.threads[t])
    {
      ThreadStep(s, a, t);
    }
    forall n | 0 <= n < |s2.created|
      ensures Accounted(s2, n)
    {
      AccountedStep(s, a, n);
    }
  }

  lemma {:induction false} InvRun(s: State, actions: seq<Action>)
    requires Inv(s)
    ensures Inv(Run(s, actions)) && Keeps(s, Run(s, actions))
    decreases |actions|
  {
    if actions != [] {
      InvStep(s, actions[0]);
      InvRun(Step(s, actions[0]), actions[1..]);
    }
  }

  // In every interleaving at most one object is ever created per key.
  lemma CreatedOnce(actions: seq<Action>, i: nat, j: nat)
    requires i < j < |Run(INITIAL, actions).created|
    ensures Run(INITIAL, actions).created[i] != Run(INITIAL, actions).created[j]
  {
    InvRun(INITIAL, actions);
    var s := Run(INITIAL, actions);
    assert Accounted(s, i) && Accounted(s, j);
    if Pending(s, i) || Pending(s, j) {
      var t := s.writer.value;
      assert ThreadInv(s, t, s.threads[t]);
    }
  }

  // All calls with the same key return the same object, in every interleaving.
  lemma SameObjectForSameKey(actions: seq<Action>, i: nat, j: nat)
    requires i < |Run(INITIAL, actions).returned| && j < |Run(INITIAL, actions).returned|
    requires Run(INITIAL, actions).returned[i].key == Run(INITIAL, actions).returned[j].key
    ensures Run(INITIAL, actions).returned[i].obj == Run(INITIAL, actions).returned[j].obj
  {
    InvRun(INITIAL, actions);
  }

  // Entries are never overwritten or removed, whatever happens after any point of a run.
  lemma EntriesStay(before: seq<Action>, later: seq<Action>, key: string)
    requires key in Run(INITIAL, before).entries
    ensures
      var s := Run(INITIAL, before);
      key in Run(s, later).entries && Run(s, later).entries[key] == s.entries[key]
  {
    InvRun(INITIAL, before);
    InvRun(Run(INITIAL, before), later);
  }

  // While someone holds the write lock nobody else is in the map.
  lemma MutualExclusion(actions: seq<Action>, t: nat, u: nat)
    requires t in Run(INITIAL, actions).threads && u in Run(INITIAL, actions).threads && t != u
    requires HoldsWrite(Run(INITIAL, actions).threads[t].pc)
    ensures !HoldsWrite(Run(INITIAL, actions).threads[u].pc) && !HoldsRead(Run(INITIAL, actions).threads[u].pc)
  {
    InvRun(INITIAL, actions);
    var s := Run(INITIAL, actions);
    assert ThreadInv(s, t, s.threads[t]) && ThreadInv(s, u, s.threads[u]);
  }

  // --- A call that runs alone is the sequential For ---

  lemma RunCons(s: State, a: Action, rest: seq<Action>)
    ensures Run(s, [a] + rest) == Run(Step(s, a), rest)
  {
    assert ([a] + rest)[1..] == rest;
  }

  // The thread t, added to a state that does not have it.
  function With(s: State, t: nat, key: string, pc: Pc): State { s.(threads := s.threads[t := Thread(key, pc)]) }

  lemma Replaced(s: State, t: nat, key: string, pc: Pc, next: Pc)
    requires t !in s.threads
    ensures Moved(With(s, t, key, pc), t, next) == With(s, t, key, next)
    ensures With(s, t, key, pc).threads - {t} == s.threads
  {
  }

  // Looking under the read lock: the thread leaves with what it found, or wants to write.
  lemma LookAlone(s: State, t: nat, key: string)
    requires t !in s.threads && s.readers == {} && s.writer == None
    ensures
      Step(Step(Step(Step(s, Call(t, key)), RLock(t)), Look(t)), RUnlock(t)) ==
      if key in s.entries then s.(returned := s.returned + [Returned(key, s.entries[key])])
      else With(s, t, key, WantWrite)
  {
    var r := s.(readers := {t});
    Replaced(s, t, key, WantRead, Reading);
    Replaced(r, t, key, Reading, Seen(Lookup(s, key)));
    Replaced(r, t, key, Seen(Lookup(s, key)), WantWrite);
    assert {t} - {t} == {};
    assert Step(s, Call(t, key)) == With(s, t, key, WantRead);
    assert Step(With(s, t, key, WantRead), RLock(t)) == With(r, t, key, Reading);
    assert Step(With(r, t, key, Reading), Look(t)) == With(r, t, key, Seen(Lookup(s, key)));
  }

  lemma LockedAndMissing(s: State, t: nat, key: string)
    requires t !in s.threads && s.readers == {} && s.writer == None && key !in s.entries
    ensures Step(Step(With(s, t, key, WantWrite), Lock(t)), Recheck(t)) == With(s.(writer := Some(t)), t, key, Missing)
  {
    var w := s.(writer := Some(t));
    Replaced(w, t, key, WantWrite, Checking);
    Replaced(w, t, key, Checking, Missing);
    assert Step(With(s, t, key, WantWrite), Lock(t)) == With(w, t, key, Checking);
  }

  lemma CreatedAndStored(s: State, t: nat, key: string)
    requires t !in s.threads
    ensures
      var n := |s.created|;
      Step(Step(With(s, t, key, Missing), Create(t)), Store(t)) ==
      With(s.(created := s.created + [key], entries := s.entries[key := n]), t, key, Leaving(n))
  {
    var n := |s.created|;
    var c := s.(created := s.created + [key]);
    Replaced(s, t, key, Missing, Created(n));
    Replaced(c, t, key, Created(n), Leaving(n));
    assert Step(With(s, t, key, Missing), Create(t)) == With(c, t, key, Created(n));
  }

  lemma Unlocked(s: State, t: nat, key: string, n: nat)
    requires t !in s.threads
    ensures Step(With(s, t, key, Leaving(n)), Unlock(t)) ==
            s.(returned := s.returned + [Returned(key, n)], writer := None)
  {
    Replaced(s, t, key, Leaving(n), Leaving(n));
  }

  // Creating under the write lock.
  lemma CreateAlone(s: State, t: nat, key: string)
    requires t !in s.threads && s.readers == {} && s.writer == None && key !in s.entries
    ensures
      var n := |s.created|;
      Step(Step(Step(Step(Step(With(s, t, key, WantWrite), Lock(t)), Recheck(t)), Create(t)), Store(t)), Unlock(t)) ==
      s.(entries := s.entries[key := n], created := s.created + [key], returned := s.returned + [Returned(key, n)])
  {
    var n := |s.created|;
    var w := s.(writer := Some(t));
    LockedAndMissing(s, t, key);
    CreatedAndStored(w, t, key);
    Unlocked(w.(created := s.created + [key], entries := s.entries[key := n]), t, key, n);
  }

  function ForActions(t: nat, key: string): seq<Action> {
    [Call(t, key)] + ([RLock(t)] + ([Look(t)] + ([RUnlock(t)] +
    ([Lock(t)] + ([Recheck(t)] + ([Create(t)] + ([Store(t)] + ([Unlock(t)] + []))))))))
  }

  lemma ForRun(s: State, t: nat, key: string)
    ensures
      var s4 := Step(Step(Step(Step(s, Call(t, key)), RLock(t)), Look(t)), RUnlock(t));
      Run(s, ForActions(t, key)) ==
      Step(Step(Step(Step(Step(s4, Lock(t)), Recheck(t)), Create(t)), Store(t)), Unlock(t))
  {
    var unlock := [Unlock(t)] + [];
    var store := [Store(t)] + unlock;
    var create := [Create(t)] + store;
    var recheck := [Recheck(t)] + create;
    var lock := [Lock(t)] + recheck;
    var runlock := [RUnlock(t)] + lock;
    var look := [Look(t)] + runlock;
    var s1 := Step(s, Call(t, key));
    var s2 := Step(s1, RLock(t));
    var s3 := Step(s2, Look(t));
    var s4 := Step(s3, RUnlock(t));
    var s5 := Step(s4, Lock(t));
    var s6 := Step(s5, Recheck(t));
    var s7 := Step(s6, Create(t));
    RunCons(s, Call(t, key), [RLock(t)] + look);
    RunCons(s1, RLock(t), look);
    RunCons(s2, Look(t), runlock);
    RunCons(s3, RUnlock(t), lock);
    RunCons(s4, Lock(t), recheck);
    RunCons(s5, Recheck(t), create);
    RunCons(s6, Create(t), store);
    RunCons(s7, Store(t), unlock);
    RunCons(Step(s7, Store(t)), Unlock(t), []);
  }

  // The registered object is returned and nothing else changes; or one object is created,
  // registered and returned.
  lemma AloneIsFor(s: State, t: nat, key: string)
    requires t !in s.threads && s.readers == {} && s.writer == None
    ensures
      var n := |s.created|;
      Run(s, ForActions(t, key)) ==
      if key in s.entries then s.(returned := s.returned + [Returned(key, s.entries[key])])
      else s.(entries := s.entries[key := n], created := s.created + [key], returned := s.returned + [Returned(key, n)])
  {
    ForRun(s, t, key);
    LookAlone(s, t, key);
    if key !in s.entries {
      CreateAlone(s, t, key);
    }
  }
}
