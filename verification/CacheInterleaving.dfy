// Concurrent Gets and Invalidates of the auth cache, one atomic step at a time.
module CacheInterleaving {
  import opened Wrappers
  import opened AuthCache

  // An entry, with the step at which the loader chain answered.
  datatype Tagged = Tagged(meta: Metadata, cachedAt: int, born: nat)

  // Where a Get is: behind the locked read of the map; at loader `next`, all earlier ones
  // having missed; holding the chain's answer; or holding the stamped answer.
  datatype Pc =
    | Looked(found: Option<Tagged>)
    | Loading(next: nat)
    | Answered(meta: Metadata, born: nat)
    | Stamped(tagged: Tagged)

  datatype Thread = Thread(key: Key, started: nat, pc: Pc)

  // What the loader chain answered, and when.
  datatype Loaded = Loaded(key: Key, meta: Metadata, at: int)

  // A Get that returned without error.
  datatype Served = Served(key: Key, started: nat, at: int, tagged: Tagged, fromCache: bool)

  datatype Config = Config(ttl: int, cap: nat, loaders: nat)

  // `now` is the clock, `step` numbers the steps; `loaded` records the chain's answers by step.
  datatype State = State(now: int, step: nat, data: map<Key, Tagged>, threads: map<nat, Thread>,
                         loaded: map<nat, Loaded>, served: seq<Served>)

  const INITIAL := State(0, 0, map[], map[], map[], [])

  datatype Action =
    | Tick(d: nat)
    | Start(t: nat, key: Key)
    | Check(t: nat)
    | Load(t: nat, answer: Answer)
    | Stamp(t: nat)
    | Store(t: nat, victim: Key)
    | Invalidate(key: Key)

  predicate Enabled(cfg: Config, s: State, a: Action) {
    match a
    case Tick(_) => true
    case Start(t, _) => t !in s.threads
    case Check(t) => t in s.threads && s.threads[t].pc.Looked?
    case Load(t, _) => t in s.threads && s.threads[t].pc.Loading?
    case Stamp(t) => t in s.threads && s.threads[t].pc.Answered?
    case Store(t, victim) => t in s.threads && s.threads[t].pc.Stamped? && (|s.data| >= cfg.cap ==> victim in s.data)
    case Invalidate(_) => true
  }

  function Moved(s: State, t: nat, pc: Pc): State
    requires t in s.threads
  {
    s.(threads := s.threads[t := s.threads[t].(pc := pc)])
  }

  function Gone(s: State, t: nat): State { s.(threads := s.threads - {t}) }

  function AfterCheck(cfg: Config, s: State, t: nat): State
    requires t in s.threads && s.threads[t].pc.Looked?
  {
    var th := s.threads[t];
    var found := th.pc.found;
    if found.Some? && Fresh(found.value.cachedAt, s.now, cfg.ttl) then
      Gone(s, t).(served := s.served + [Served(th.key, th.started, s.now, found.value, true)])
    else Moved(s, t, Loading(0))
  }

  // The chain answers at the first hit, or negatively behind the last miss.
  function AfterLoad(cfg: Config, s: State, t: nat, answer: Answer): State
    requires t in s.threads && s.threads[t].pc.Loading?
  {
    var th := s.threads[t];
    if answer.HardError? then Gone(s, t)
    else if answer.Miss? && th.pc.next + 1 < cfg.loaders then Moved(s, t, Loading(th.pc.next + 1))
    else
      var meta := if answer.Hit? then answer.meta else NEGATIVE;
      Moved(s, t, Answered(meta, s.step)).(loaded := s.loaded[s.step := Loaded(th.key, meta, s.now)])
  }

  function AfterStore(cfg: Config, s: State, t: nat, victim: Key): State
    requires t in s.threads && s.threads[t].pc.Stamped?
  {
    var th := s.threads[t];
    Gone(s, t).(data := Put(s.data, cfg.cap, th.key, th.pc.tagged, victim),
                served := s.served + [Served(th.key, th.started, s.now, th.pc.tagged, false)])
  }

  function After(cfg: Config, s: State, a: Action): State
    requires Enabled(cfg, s, a)
  {
    match a
    case Tick(d) => s.(now := s.now + d)
    case Start(t, key) =>
      s.(threads := s.threads[t := Thread(key, s.step, Looked(if key in s.data then Some(s.data[key]) else None))])
    case Check(t) => AfterCheck(cfg, s, t)
    case Load(t, answer) => AfterLoad(cfg, s, t, answer)
    case Stamp(t) => Moved(s, t, Stamped(Tagged(s.threads[t].pc.meta, s.now, s.threads[t].pc.born)))
    case Store(t, victim) => AfterStore(cfg, s, t, victim)
    case Invalidate(key) => s.(data := s.data - {key})
  }

  // A step that is not enabled changes nothing but the step number.
  function Step(cfg: Config, s: State, a: Action): State {
    (if Enabled(cfg, s, a) then After(cfg, s, a) else s).(step := s.step + 1)
  }

  function Run(cfg: Config, s: State, actions: seq<Action>): State
    decreases |actions|
  {
    if actions == [] then s else Run(cfg, Step(cfg, s, actions[0]), actions[1..])
  }

  lemma {:induction false} RunAppend(cfg: Config, s: State, a: seq<Action>, b: seq<Action>)
    ensures Run(cfg, s, a + b) == Run(cfg, Run(cfg, s, a), b)
    decreases |a|
  {
    if a == [] {
      assert a + b == b;
    } else {
      assert (a + b)[1..] == a[1..] + b;
      RunAppend(cfg, Step(cfg, s, a[0]), a[1..], b);
    }
  }

  // --- What every step keeps ---

  // An entry carries what the chain answered for this key at its birth, and was stamped
  // no earlier than that and no later than now.
  ghost predicate Sound(s: State, key: Key, e: Tagged) {
    && e.born < s.step && e.born in s.loaded
    && s.loaded[e.born].key == key && s.loaded[e.born].meta == e.meta
    && s.loaded[e.born].at <= e.cachedAt <= s.now
  }

  ghost predicate SoundThread(s: State, th: Thread) {
    && th.started < s.step
    && match th.pc
       case Looked(found) => found.Some? ==> Sound(s, th.key, found.value)
       case Loading(_) => true
       case Answered(meta, born) =>
         && th.started < born < s.step && born in s.loaded
         && s.loaded[born].key == th.key && s.loaded[born].meta == meta && s.loaded[born].at <= s.now
       case Stamped(e) => th.started < e.born && Sound(s, th.key, e)
  }

  ghost predicate SoundServed(cfg: Config, s: State, x: Served) {
    && Sound(s, x.key, x.tagged) && x.tagged.cachedAt <= x.at <= s.now
    && (x.fromCache ==> Fresh(x.tagged.cachedAt, x.at, cfg.ttl))
    && (!x.fromCache ==> x.started < x.tagged.born)
    && x.started < s.step
  }

  ghost predicate Inv(cfg: Config, s: State) {
    && cfg.cap > 0 && |s.data| <= cfg.cap
    && (forall k :: k in s.data ==> Sound(s, k, s.data[k]))
    && (forall t :: t in s.threads ==> SoundThread(s, s.threads[t]))
    && (forall i :: 0 <= i < |s.served| ==> SoundServed(cfg, s, s.served[i]))
    && (forall n :: n in s.loaded ==> n < s.step)
  }

  // Time passes, steps are counted, and the record of loads only grows.
  ghost predicate Grows(s: State, s2: State) {
    && s.now <= s2.now && s.step < s2.step
    && (forall n :: n in s.loaded ==> n in s2.loaded && s2.loaded[n] == s.loaded[n])
  }

  lemma StepGrows(cfg: Config, s: State, a: Action)
    requires forall n :: n in s.loaded ==> n < s.step
    ensures Grows(s, Step(cfg, s, a))
    ensures forall n :: n in Step(cfg, s, a).loaded ==> n < s.step + 1
  {
  }

  // Only Store and Invalidate touch the map.
  lemma DataKept(cfg: Config, s: State, a: Action)
    requires !a.Store? && !a.Invalidate?
    ensures Step(cfg, s, a).data == s.data
  {
  }

  lemma DataBounded(cfg: Config, s: State, a: Action)
    requires 0 < cfg.cap && |s.data| <= cfg.cap
    ensures |Step(cfg, s, a).data| <= cfg.cap
  {
    if a.Invalidate? {
      RemoveBounded(s.data, a.key);
    } else if !a.Store? {
      DataKept(cfg, s, a);
    } else if Enabled(cfg, s, a) {
      var th := s.threads[a.t];
      PutBounded(s.data, cfg.cap, th.key, th.pc.tagged, a.victim);
    }
  }

  // The thread a step belongs to; no other thread moves.
  function Actor(a: Action): Option<nat> {
    match a
    case Start(t, _) => Some(t)
    case Check(t) => Some(t)
    case Load(t, _) => Some(t)
    case Stamp(t) => Some(t)
    case Store(t, _) => Some(t)
    case _ => None
  }

  lemma OthersStay(cfg: Config, s: State, a: Action, t: nat)
    requires t in Step(cfg, s, a).threads
    ensures !Enabled(cfg, s, a) || Actor(a) != Some(t) ==>
              t in s.threads && Step(cfg, s, a).threads[t] == s.threads[t]
  {
  }

  // The thread behind a step.
  function Of(s: State, a: Action): Thread
    requires !a.Tick? && !a.Invalidate? && a.t in s.threads
  {
    s.threads[a.t]
  }

  // A Get that ends at its check, with what it found.
  ghost predicate Hits(cfg: Config, s: State, a: Action) {
    && a.Check? && a.t in s.threads && Of(s, a).pc.Looked? && Of(s, a).pc.found.Some?
    && Fresh(Of(s, a).pc.found.value.cachedAt, s.now, cfg.ttl)
  }

  // A Get that ends by storing what it loaded.
  ghost predicate Stores(cfg: Config, s: State, a: Action) {
    && a.Store? && a.t in s.threads && Of(s, a).pc.Stamped? && (|s.data| >= cfg.cap ==> a.victim in s.data)
  }

  lemma ServedBy(cfg: Config, s: State, a: Action)
    ensures Step(cfg, s, a).served ==
            if Hits(cfg, s, a) then
              s.served + [Served(Of(s, a).key, Of(s, a).started, s.now, Of(s, a).pc.found.value, true)]
            else if Stores(cfg, s, a) then
              s.served + [Served(Of(s, a).key, Of(s, a).started, s.now, Of(s, a).pc.tagged, false)]
            else s.served
  {
  }

  lemma StoreData(cfg: Config, s: State, a: Action)
    requires a.Store?
    ensures Step(cfg, s, a).data ==
            if Stores(cfg, s, a) then Put(s.data, cfg.cap, Of(s, a).key, Of(s, a).pc.tagged, a.victim) else s.data
  {
  }

  lemma DataBy(cfg: Config, s: State, a: Action)
    ensures Step(cfg, s, a).data ==
            if Stores(cfg, s, a) then Put(s.data, cfg.cap, Of(s, a).key, Of(s, a).pc.tagged, a.victim)
            else if a.Invalidate? then s.data - {a.key}
            else s.data
  {
    if a.Store? {
      StoreData(cfg, s, a);
    } else if !a.Invalidate? {
      DataKept(cfg, s, a);
    }
  }

  // An entry of the map is an old one, or the one just stored.
  lemma DataFrom(cfg: Config, s: State, a: Action, k: Key)
    requires k in Step(cfg, s, a).data
    ensures
      var e := Step(cfg, s, a).data[k];
      (Stores(cfg, s, a) && Of(s, a).key == k && Of(s, a).pc.tagged == e) || (k in s.data && s.data[k] == e)
  {
    DataBy(cfg, s, a);
  }

  // A served Get is an old one, a hit, or one that has just stored.
  ghost predicate NowServed(cfg: Config, s: State, a: Action, x: Served) {
    || (Hits(cfg, s, a) && x == Served(Of(s, a).key, Of(s, a).started, s.now, Of(s, a).pc.found.value, true))
    || (Stores(cfg, s, a) && x == Served(Of(s, a).key, Of(s, a).started, s.now, Of(s, a).pc.tagged, false))
  }

  lemma ServedFrom(cfg: Config, s: State, a: Action, i: nat)
    requires i < |Step(cfg, s, a).served|
    ensures
      var x := Step(cfg, s, a).served[i];
      if i < |s.served| then x == s.served[i] else NowServed(cfg, s, a, x)
  {
    ServedBy(cfg, s, a);
  }

  lemma SoundGrows(s: State, s2: State, k: Key, e: Tagged)
    requires Sound(s, k, e) && Grows(s, s2)
    ensures Sound(s2, k, e)
  {
  }

  lemma ThreadGrows(s: State, s2: State, th: Thread)
    requires SoundThread(s, th) && Grows(s, s2)
    ensures SoundThread(s2, th)
  {
  }

  lemma ServedGrows(cfg: Config, s: State, s2: State, x: Served)
    requires SoundServed(cfg, s, x) && Grows(s, s2)
    ensures SoundServed(cfg, s2, x)
  {
  }

  lemma ActorSound(cfg: Config, s: State, a: Action, t: nat)
    requires Inv(cfg, s) && Enabled(cfg, s, a) && Actor(a) == Some(t) && t in Step(cfg, s, a).threads
    ensures SoundThread(Step(cfg, s, a), Step(cfg, s, a).threads[t])
  {
    if !a.Start? { assert SoundThread(s, s.threads[t]); }
  }

  lemma InvData(cfg: Config, s: State, a: Action, k: Key)
    requires Inv(cfg, s) && k in Step(cfg, s, a).data
    ensures Sound(Step(cfg, s, a), k, Step(cfg, s, a).data[k])
  {
    var s2 := Step(cfg, s, a);
    StepGrows(cfg, s, a);
    DataFrom(cfg, s, a, k);
    if Stores(cfg, s, a) && Of(s, a).key == k && Of(s, a).pc.tagged == s2.data[k] {
      assert SoundThread(s, Of(s, a));
      SoundGrows(s, s2, k, s2.data[k]);
    } else {
      SoundGrows(s, s2, k, s.data[k]);
    }
  }

  lemma NewlyServed(cfg: Config, s: State, a: Action, x: Served)
    requires NowServed(cfg, s, a, x) && SoundThread(s, Of(s, a))
    ensures SoundServed(cfg, s, x)
  {
  }

  lemma InvServed(cfg: Config, s: State, a: Action, i: nat)
    requires Inv(cfg, s) && i < |Step(cfg, s, a).served|
    ensures SoundServed(cfg, Step(cfg, s, a), Step(cfg, s, a).served[i])
  {
    var x := Step(cfg, s, a).served[i];
    StepGrows(cfg, s, a);
    ServedFrom(cfg, s, a, i);
    if i >= |s.served| {
      NewlyServed(cfg, s, a, x);
    }
    ServedGrows(cfg, s, Step(cfg, s, a), x);
  }

  lemma InvStep(cfg: Config, s: State, a: Action)
    requires Inv(cfg, s)
    ensures Inv(cfg, Step(cfg, s, a))
  {
    var s2 := Step(cfg, s, a);
    StepGrows(cfg, s, a);
    DataBounded(cfg, s, a);
    forall k | k in s2.data
      ensures Sound(s2, k, s2.data[k])
    {
      InvData(cfg, s, a, k);
    }
    forall t | t in s2.threads
      ensures SoundThread(s2, s2.threads[t])
    {
      OthersStay(cfg, s, a, t);
      if Enabled(cfg, s, a) && Actor(a) == Some(t) {
        ActorSound(cfg, s, a, t);
      } else {
        ThreadGrows(s, s2, s.threads[t]);
      }
    }
    forall i | 0 <= i < |s2.served|
      ensures SoundServed(cfg, s2, s2.served[i])
    {
      InvServed(cfg, s, a, i);
    }
  }

  lemma {:induction false} InvRun(cfg: Config, s: State, actions: seq<Action>)
    requires Inv(cfg, s)
    ensures Inv(cfg, Run(cfg, s, actions))
    ensures Run(cfg, s, actions).now >= s.now && Run(cfg, s, actions).step >= s.step
    decreases |actions|
  {
    if actions != [] {
      InvStep(cfg, s, actions[0]);
      StepGrows(cfg, s, actions[0]);
      InvRun(cfg, Step(cfg, s, actions[0]), actions[1..]);
    }
  }

  // In every run of concurrent steps, the map stays within its capacity, and every answer
  // from it is younger than the ttl, was stamped after it was loaded, and is what the loader
  // chain answered for that key.
  lemma ServedIsFreshAndLoaded(cfg: Config, actions: seq<Action>, i: nat)
    requires cfg.cap > 0 && i < |Run(cfg, INITIAL, actions).served|
    ensures
      var s := Run(cfg, INITIAL, actions);
      var x := s.served[i];
      && |s.data| <= cfg.cap
      && (x.fromCache ==> x.at - x.tagged.cachedAt < cfg.ttl)
      && x.tagged.born in s.loaded
      && s.loaded[x.tagged.born].key == x.key
      && s.loaded[x.tagged.born].meta == x.tagged.meta
      && s.loaded[x.tagged.born].at <= x.tagged.cachedAt <= x.at
  {
    InvRun(cfg, INITIAL, actions);
    assert SoundServed(cfg, Run(cfg, INITIAL, actions), Run(cfg, INITIAL, actions).served[i]);
  }

  // --- Only what a loader vouched for is served as valid ---

  lemma RunSnoc(cfg: Config, actions: seq<Action>, a: Action)
    ensures Run(cfg, INITIAL, actions + [a]) == Step(cfg, Run(cfg, INITIAL, actions), a)
  {
    RunAppend(cfg, INITIAL, actions, [a]);
    assert [a][1..] == [];
  }

  // Step n of the run was a loader's answer to a Get of this key: a hit with this metadata, or a
  // miss that leaves the negative entry.
  ghost predicate AnsweredAt(cfg: Config, actions: seq<Action>, n: nat, l: Loaded) {
    && n < |actions| && actions[n].Load?
    && (var s := Run(cfg, INITIAL, actions[..n]);
        actions[n].t in s.threads && s.threads[actions[n].t].pc.Loading? && s.threads[actions[n].t].key == l.key)
    && match actions[n].answer
       case Hit(meta) => l.meta == meta
       case Miss => !l.meta.valid
       case HardError(_) => false
  }

  lemma AnsweredLater(cfg: Config, actions: seq<Action>, a: Action, n: nat, l: Loaded)
    requires AnsweredAt(cfg, actions, n, l)
    ensures AnsweredAt(cfg, actions + [a], n, l)
  {
    assert (actions + [a])[..n] == actions[..n];
  }

  // One step records at most one answer, under its own number.
  lemma LoadedStep(cfg: Config, s: State, a: Action, n: nat)
    requires n in Step(cfg, s, a).loaded && (n !in s.loaded || Step(cfg, s, a).loaded[n] != s.loaded[n])
    ensures
      var l := Step(cfg, s, a).loaded[n];
      && n == s.step && a.Load? && a.t in s.threads && s.threads[a.t].pc.Loading? && s.threads[a.t].key == l.key
      && match a.answer case Hit(meta) => l.meta == meta case Miss => !l.meta.valid case HardError(_) => false
  {
  }

  lemma AnsweredNow(cfg: Config, actions: seq<Action>, a: Action, l: Loaded)
    requires a.Load?
    requires
      var s := Run(cfg, INITIAL, actions);
      && a.t in s.threads && s.threads[a.t].pc.Loading? && s.threads[a.t].key == l.key
      && match a.answer case Hit(meta) => l.meta == meta case Miss => !l.meta.valid case HardError(_) => false
    ensures AnsweredAt(cfg, actions + [a], |actions|, l)
  {
    assert (actions + [a])[..|actions|] == actions;
  }

  lemma {:induction false} LoadedIsAnswered(cfg: Config, actions: seq<Action>)
    ensures
      var s := Run(cfg, INITIAL, actions);
      s.step == |actions| && forall n :: n in s.loaded ==> AnsweredAt(cfg, actions, n, s.loaded[n])
    decreases |actions|
  {
    if actions != [] {
      var init, a := actions[..|actions| - 1], actions[|actions| - 1];
      assert actions == init + [a];
      LoadedIsAnswered(cfg, init);
      RunSnoc(cfg, init, a);
      var s, s2 := Run(cfg, INITIAL, init), Run(cfg, INITIAL, actions);
      forall n | n in s2.loaded
        ensures AnsweredAt(cfg, actions, n, s2.loaded[n])
      {
        if n in s.loaded && s2.loaded[n] == s.loaded[n] {
          AnsweredLater(cfg, init, a, n, s.loaded[n]);
        } else {
          LoadedStep(cfg, s, a, n);
          AnsweredNow(cfg, init, a, s2.loaded[n]);
        }
      }
    }
  }

  // In every interleaving, metadata that is served as valid was a loader's hit for that same key.
  lemma ValidWasAHit(cfg: Config, actions: seq<Action>, i: nat)
    requires cfg.cap > 0 && i < |Run(cfg, INITIAL, actions).served|
    requires Run(cfg, INITIAL, actions).served[i].tagged.meta.valid
    ensures
      var x := Run(cfg, INITIAL, actions).served[i];
      var n := x.tagged.born;
      && n < |actions| && actions[n].Load? && actions[n].answer == Hit(x.tagged.meta)
      && var s := Run(cfg, INITIAL, actions[..n]);
         actions[n].t in s.threads && s.threads[actions[n].t].key == x.key
  {
    ServedIsFreshAndLoaded(cfg, actions, i);
    LoadedIsAnswered(cfg, actions);
    var s := Run(cfg, INITIAL, actions);
    assert AnsweredAt(cfg, actions, s.served[i].tagged.born, s.loaded[s.served[i].tagged.born]);
  }

  // --- Invalidation ---

  // A Get of k that already holds an answer young enough to be served from the map.
  ghost predicate HoldsAnswer(cfg: Config, s: State, th: Thread, k: Key) {
    && th.key == k
    && match th.pc
       case Answered(_, _) => cfg.ttl > 0
       case Stamped(e) => Fresh(e.cachedAt, s.now, cfg.ttl)
       case _ => false
  }

  ghost predicate Racing(cfg: Config, s: State, k: Key) {
    exists t :: t in s.threads && HoldsAnswer(cfg, s, s.threads[t], k)
  }

  // Every Get of k that started after step n was served something loaded after step n.
  ghost predicate OnlyNewer(s: State, k: Key, n: nat) {
    forall i :: 0 <= i < |s.served| && s.served[i].key == k && s.served[i].started > n ==> s.served[i].tagged.born > n
  }

  // An entry that is new, or too old to be served.
  ghost predicate Harmless(cfg: Config, s: State, e: Tagged, n: nat) {
    e.born > n || !Fresh(e.cachedAt, s.now, cfg.ttl)
  }

  ghost predicate CleanThread(cfg: Config, s: State, th: Thread, k: Key, n: nat) {
    th.key == k ==>
      match th.pc
      case Looked(found) => th.started > n && found.Some? ==> Harmless(cfg, s, found.value, n)
      case Loading(_) => true
      case Answered(_, born) => born > n || cfg.ttl <= 0
      case Stamped(e) => Harmless(cfg, s, e, n)
  }

  ghost predicate Clean(cfg: Config, s: State, k: Key, n: nat) {
    && n < s.step
    && (k in s.data ==> Harmless(cfg, s, s.data[k], n))
    && (forall t :: t in s.threads ==> CleanThread(cfg, s, s.threads[t], k, n))
    && OnlyNewer(s, k, n)
  }

  lemma CleanGrows(cfg: Config, s: State, s2: State, th: Thread, k: Key, n: nat)
    requires CleanThread(cfg, s, th, k, n) && s.now <= s2.now
    ensures CleanThread(cfg, s2, th, k, n)
  {
  }

  lemma CleanActor(cfg: Config, s: State, a: Action, k: Key, n: nat, t: nat)
    requires Clean(cfg, s, k, n) && Enabled(cfg, s, a) && Actor(a) == Some(t) && t in Step(cfg, s, a).threads
    requires t in s.threads ==> SoundThread(s, s.threads[t])
    ensures CleanThread(cfg, Step(cfg, s, a), Step(cfg, s, a).threads[t], k, n)
  {
    if !a.Start? {
      assert CleanThread(cfg, s, s.threads[t], k, n);
    }
  }

  lemma CleanThreadStep(cfg: Config, s: State, a: Action, k: Key, n: nat, t: nat)
    requires Inv(cfg, s) && Clean(cfg, s, k, n) && t in Step(cfg, s, a).threads
    ensures CleanThread(cfg, Step(cfg, s, a), Step(cfg, s, a).threads[t], k, n)
  {
    OthersStay(cfg, s, a, t);
    if Enabled(cfg, s, a) && Actor(a) == Some(t) {
      CleanActor(cfg, s, a, k, n, t);
    } else {
      StepGrows(cfg, s, a);
      CleanGrows(cfg, s, Step(cfg, s, a), s.threads[t], k, n);
    }
  }

  lemma CleanNow(cfg: Config, s: State, a: Action, k: Key, n: nat, x: Served)
    requires NowServed(cfg, s, a, x) && CleanThread(cfg, s, Of(s, a), k, n) && SoundThread(s, Of(s, a))
    ensures x.key == k && x.started > n ==> x.tagged.born > n
  {
  }

  lemma CleanServedStep(cfg: Config, s: State, a: Action, k: Key, n: nat, i: nat)
    requires Inv(cfg, s) && Clean(cfg, s, k, n) && i < |Step(cfg, s, a).served|
    ensures var x := Step(cfg, s, a).served[i]; x.key == k && x.started > n ==> x.tagged.born > n
  {
    ServedFrom(cfg, s, a, i);
    if i >= |s.served| {
      CleanNow(cfg, s, a, k, n, Step(cfg, s, a).served[i]);
    }
  }

  lemma CleanStep(cfg: Config, s: State, a: Action, k: Key, n: nat)
    requires Inv(cfg, s) && Clean(cfg, s, k, n)
    ensures Clean(cfg, Step(cfg, s, a), k, n)
  {
    var s2 := Step(cfg, s, a);
    forall t | t in s2.threads
      ensures CleanThread(cfg, s2, s2.threads[t], k, n)
    {
      CleanThreadStep(cfg, s, a, k, n, t);
    }
    forall i | 0 <= i < |s2.served|
      ensures s2.served[i].key == k && s2.served[i].started > n ==> s2.served[i].tagged.born > n
    {
      CleanServedStep(cfg, s, a, k, n, i);
    }
    CleanDataStep(cfg, s, a, k, n);
  }

  lemma CleanDataStep(cfg: Config, s: State, a: Action, k: Key, n: nat)
    requires Inv(cfg, s) && Clean(cfg, s, k, n)
    ensures k in Step(cfg, s, a).data ==> Harmless(cfg, Step(cfg, s, a), Step(cfg, s, a).data[k], n)
  {
    if k in Step(cfg, s, a).data {
      DataFrom(cfg, s, a, k);
      StepGrows(cfg, s, a);
      if Stores(cfg, s, a) {
        assert CleanThread(cfg, s, Of(s, a), k, n);
      }
    }
  }

  lemma {:induction false} CleanRun(cfg: Config, s: State, actions: seq<Action>, k: Key, n: nat)
    requires Inv(cfg, s) && Clean(cfg, s, k, n)
    ensures Clean(cfg, Run(cfg, s, actions), k, n)
    decreases |actions|
  {
    if actions != [] {
      InvStep(cfg, s, actions[0]);
      CleanStep(cfg, s, actions[0], k, n);
      CleanRun(cfg, Step(cfg, s, actions[0]), actions[1..], k, n);
    }
  }

  function Continuation(cfg: Config, s: State, k: Key, actions: seq<Action>): State {
    Run(cfg, Step(cfg, s, Invalidate(k)), actions)
  }

  // A thread name that is not in use.
  lemma {:induction false} FreshName(names: set<nat>) returns (t: nat)
    ensures forall n :: n in names ==> n < t
    decreases |names|
  {
    t := 0;
    if names != {} {
      var n :| n in names;
      var u := FreshName(names - {n});
      t := if u > n then u else n + 1;
      assert forall m :: m in names ==> m == n || m in names - {n};
    }
  }

  // A stamped answer that is still young, stored behind an invalidation, is served to a Get
  // that starts later.
  lemma StoreThenServe(cfg: Config, s: State, t: nat, k: Key) returns (actions: seq<Action>)
    requires Inv(cfg, s) && t in s.threads && s.threads[t].key == k && s.threads[t].pc.Stamped?
    requires Fresh(s.threads[t].pc.tagged.cachedAt, s.now, cfg.ttl)
    ensures
      var s2 := Run(cfg, s, actions);
      |s2.served| > 0 && var x := s2.served[|s2.served| - 1];
        x.key == k && x.started > s.step && x.tagged == s.threads[t].pc.tagged
  {
    var victim := k;
    if |s.data| >= cfg.cap {
      assert s.data.Keys != {};
      victim :| victim in s.data;
    }
    var e := s.threads[t].pc.tagged;
    var s1 := Step(cfg, s, Store(t, victim));
    assert s1.data[k] == e && s1.now == s.now;
    var u := FreshName(s1.threads.Keys);
    assert u !in s1.threads.Keys;
    ServeFromMap(cfg, s1, u, k, e);
    ThreeSteps(cfg, s, Store(t, victim), Start(u, k), Check(u));
    actions := [Store(t, victim), Start(u, k), Check(u)];
  }

  lemma ServeFromMap(cfg: Config, s: State, u: nat, k: Key, e: Tagged)
    requires u !in s.threads && k in s.data && s.data[k] == e && Fresh(e.cachedAt, s.now, cfg.ttl)
    ensures Step(cfg, Step(cfg, s, Start(u, k)), Check(u)).served == s.served + [Served(k, s.step, s.now, e, true)]
  {
    assert Step(cfg, s, Start(u, k)).threads[u] == Thread(k, s.step, Looked(Some(e)));
  }

  lemma ThreeSteps(cfg: Config, s: State, a: Action, b: Action, c: Action)
    ensures Run(cfg, s, [a, b, c]) == Step(cfg, Step(cfg, Step(cfg, s, a), b), c)
  {
    assert [a, b, c][1..] == [b, c] && [b, c][1..] == [c];
    assert Run(cfg, Step(cfg, Step(cfg, s, a), b), [c]) == Step(cfg, Step(cfg, Step(cfg, s, a), b), c);
  }

  // After Invalidate(k), whatever happens next, every later Get of k returns something that
  // was loaded after it: exactly when, at the Invalidate, no Get of k holds a loader answer
  // that it could still store and have served. No Get of k in flight is enough.
  lemma InvalidateIff(cfg: Config, before: seq<Action>, k: Key)
    requires cfg.cap > 0
    ensures
      var s := Run(cfg, INITIAL, before);
      (forall actions :: OnlyNewer(Continuation(cfg, s, k, actions), k, s.step)) <==> !Racing(cfg, s, k)
  {
    var s := Run(cfg, INITIAL, before);
    InvRun(cfg, INITIAL, before);
    var s1 := Step(cfg, s, Invalidate(k));
    InvStep(cfg, s, Invalidate(k));
    if Racing(cfg, s, k) {
      var t :| t in s.threads && HoldsAnswer(cfg, s, s.threads[t], k);
      var bad := StaleServe(cfg, s, t, k);
      assert !OnlyNewer(Continuation(cfg, s, k, bad), k, s.step);
    } else {
      CleanAfterInvalidate(cfg, s, k);
      forall actions
        ensures OnlyNewer(Continuation(cfg, s, k, actions), k, s.step)
      {
        CleanRun(cfg, s1, actions, k, s.step);
      }
    }
  }

  lemma CleanAfterInvalidate(cfg: Config, s: State, k: Key)
    requires Inv(cfg, s) && !Racing(cfg, s, k)
    ensures Clean(cfg, Step(cfg, s, Invalidate(k)), k, s.step)
  {
    var s1 := Step(cfg, s, Invalidate(k));
    forall t | t in s1.threads
      ensures CleanThread(cfg, s1, s1.threads[t], k, s.step)
    {
      assert SoundThread(s, s.threads[t]) && !HoldsAnswer(cfg, s, s.threads[t], k);
    }
    forall i | 0 <= i < |s.served|
      ensures s.served[i].started <= s.step
    {
      assert SoundServed(cfg, s, s.served[i]);
    }
  }

  // A thread that holds an answer stamps it, if it has not yet.
  lemma StampIt(cfg: Config, s: State, t: nat, k: Key) returns (first: seq<Action>)
    requires Inv(cfg, s) && t in s.threads && HoldsAnswer(cfg, s, s.threads[t], k)
    ensures
      var s2 := Run(cfg, s, first);
      && Inv(cfg, s2) && s.step <= s2.step && t in s2.threads && s2.threads[t].key == k && s2.threads[t].pc.Stamped?
      && s2.threads[t].pc.tagged.born ==
         (if s.threads[t].pc.Answered? then s.threads[t].pc.born else s.threads[t].pc.tagged.born)
      && Fresh(s2.threads[t].pc.tagged.cachedAt, s2.now, cfg.ttl)
  {
    if s.threads[t].pc.Answered? {
      first := [Stamp(t)];
      assert first[1..] == [];
      assert Run(cfg, s, first) == Step(cfg, s, Stamp(t));
      InvStep(cfg, s, Stamp(t));
    } else {
      first := [];
    }
  }

  lemma StaleFrom(cfg: Config, s: State, t: nat, k: Key, n: nat) returns (bad: seq<Action>)
    requires Inv(cfg, s) && n <= s.step && t in s.threads && HoldsAnswer(cfg, s, s.threads[t], k)
    requires (if s.threads[t].pc.Answered? then s.threads[t].pc.born else s.threads[t].pc.tagged.born) <= n
    ensures !OnlyNewer(Run(cfg, s, bad), k, n)
  {
    var first := StampIt(cfg, s, t, k);
    var more := StoreThenServe(cfg, Run(cfg, s, first), t, k);
    RunAppend(cfg, s, first, more);
    bad := first + more;
    var served := Run(cfg, s, bad).served;
    assert served[|served| - 1].started > n >= served[|served| - 1].tagged.born;
  }

  lemma StaleServe(cfg: Config, s: State, t: nat, k: Key) returns (bad: seq<Action>)
    requires Inv(cfg, s) && t in s.threads && HoldsAnswer(cfg, s, s.threads[t], k)
    ensures !OnlyNewer(Continuation(cfg, s, k, bad), k, s.step)
  {
    InvStep(cfg, s, Invalidate(k));
    assert SoundThread(s, s.threads[t]);
    bad := StaleFrom(cfg, Step(cfg, s, Invalidate(k)), t, k, s.step);
  }

  // --- Transparency ---

  // The loaders as a fixed function of position and key, without hard errors.
  type LoaderFunction = (nat, Key) -> Answer

  ghost predicate NoHardErrors(load: LoaderFunction) { forall i, k :: !load(i, k).HardError? }

  // The uncached chain, from loader i on.
  function Chain(cfg: Config, load: LoaderFunction, i: nat, k: Key): Metadata
    decreases cfg.loaders - i
  {
    if i >= cfg.loaders then NEGATIVE
    else match load(i, k)
      case Hit(meta) => meta
      case _ => Chain(cfg, load, i + 1, k)
  }

  // The chain is the first hit, or negative when there is none.
  lemma {:induction false} ChainIsFirstHit(cfg: Config, load: LoaderFunction, i: nat, k: Key) returns (j: nat)
    requires i <= cfg.loaders
    ensures i <= j <= cfg.loaders && forall n :: i <= n < j ==> !load(n, k).Hit?
    ensures if j < cfg.loaders then load(j, k) == Hit(Chain(cfg, load, i, k)) else !Chain(cfg, load, i, k).valid
    decreases cfg.loaders - i
  {
    if i == cfg.loaders || load(i, k).Hit? {
      j := i;
    } else {
      j := ChainIsFirstHit(cfg, load, i + 1, k);
    }
  }

  // Every Load step is answered by the function.
  function Answer1(load: LoaderFunction, s: State, a: Action): Action {
    if a.Load? && a.t in s.threads && s.threads[a.t].pc.Loading?
    then Load(a.t, load(s.threads[a.t].pc.next, s.threads[a.t].key)) else a
  }

  function RunWith(cfg: Config, load: LoaderFunction, s: State, actions: seq<Action>): State
    decreases |actions|
  {
    if actions == [] then s
    else RunWith(cfg, load, Step(cfg, s, Answer1(load, s, actions[0])), actions[1..])
  }

  ghost predicate True1(cfg: Config, load: LoaderFunction, th: Thread) {
    match th.pc
    case Looked(found) => found.Some? ==> found.value.meta == Chain(cfg, load, 0, th.key)
    case Loading(next) => next < cfg.loaders && Chain(cfg, load, next, th.key) == Chain(cfg, load, 0, th.key)
    case Answered(meta, _) => meta == Chain(cfg, load, 0, th.key)
    case Stamped(e) => e.meta == Chain(cfg, load, 0, th.key)
  }

  ghost predicate Transparent(cfg: Config, load: LoaderFunction, s: State) {
    && (forall k :: k in s.data ==> s.data[k].meta == Chain(cfg, load, 0, k))
    && (forall t :: t in s.threads ==> True1(cfg, load, s.threads[t]))
    && (forall i :: 0 <= i < |s.served| ==> s.served[i].tagged.meta == Chain(cfg, load, 0, s.served[i].key))
  }

  lemma ChainAt(cfg: Config, load: LoaderFunction, i: nat, k: Key)
    requires i < cfg.loaders
    ensures load(i, k).Hit? ==> Chain(cfg, load, i, k) == load(i, k).meta
    ensures !load(i, k).Hit? ==> Chain(cfg, load, i, k) == Chain(cfg, load, i + 1, k)
    ensures !load(i, k).Hit? && i + 1 == cfg.loaders ==> Chain(cfg, load, i, k) == NEGATIVE
  {
  }

  lemma TransparentThread(cfg: Config, load: LoaderFunction, s: State, a: Action, t: nat)
    requires cfg.loaders > 0 && NoHardErrors(load) && Transparent(cfg, load, s) && a == Answer1(load, s, a)
    requires t in Step(cfg, s, a).threads
    ensures True1(cfg, load, Step(cfg, s, a).threads[t])
  {
    OthersStay(cfg, s, a, t);
    if t in s.threads {
      var th := s.threads[t];
      assert True1(cfg, load, th);
      if th.pc.Loading? && a.Load? && a.t == t {
        var answer := load(th.pc.next, th.key);
        assert a.answer == answer && !answer.HardError?;
        ChainAt(cfg, load, th.pc.next, th.key);
      }
    }
  }

  lemma TransparentData(cfg: Config, load: LoaderFunction, s: State, a: Action, k: Key)
    requires Transparent(cfg, load, s) && k in Step(cfg, s, a).data
    ensures Step(cfg, s, a).data[k].meta == Chain(cfg, load, 0, k)
  {
    DataFrom(cfg, s, a, k);
    if Stores(cfg, s, a) {
      assert True1(cfg, load, Of(s, a));
    }
  }

  lemma TransparentServed(cfg: Config, load: LoaderFunction, s: State, a: Action, i: nat)
    requires Transparent(cfg, load, s) && i < |Step(cfg, s, a).served|
    ensures Step(cfg, s, a).served[i].tagged.meta == Chain(cfg, load, 0, Step(cfg, s, a).served[i].key)
  {
    ServedFrom(cfg, s, a, i);
    if i >= |s.served| {
      assert True1(cfg, load, Of(s, a));
    }
  }

  lemma TransparentStep(cfg: Config, load: LoaderFunction, s: State, a: Action)
    requires cfg.loaders > 0 && NoHardErrors(load) && Transparent(cfg, load, s) && a == Answer1(load, s, a)
    ensures Transparent(cfg, load, Step(cfg, s, a))
  {
    var s2 := Step(cfg, s, a);
    forall k | k in s2.data
      ensures s2.data[k].meta == Chain(cfg, load, 0, k)
    {
      TransparentData(cfg, load, s, a, k);
    }
    forall t | t in s2.threads
      ensures True1(cfg, load, s2.threads[t])
    {
      TransparentThread(cfg, load, s, a, t);
    }
    forall i | 0 <= i < |s2.served|
      ensures s2.served[i].tagged.meta == Chain(cfg, load, 0, s2.served[i].key)
    {
      TransparentServed(cfg, load, s, a, i);
    }
  }

  // With a fixed loader function, every Get in every interleaving returns what the uncached
  // chain returns, through any expiry, eviction, negative entry and invalidation.
  lemma {:induction false} CacheIsTransparent(cfg: Config, load: LoaderFunction, s: State, actions: seq<Action>)
    requires cfg.loaders > 0 && NoHardErrors(load) && Transparent(cfg, load, s)
    ensures Transparent(cfg, load, RunWith(cfg, load, s, actions))
    decreases |actions|
  {
    if actions != [] {
      var a := Answer1(load, s, actions[0]);
      TransparentStep(cfg, load, s, a);
      CacheIsTransparent(cfg, load, Step(cfg, s, a), actions[1..]);
    }
  }

  lemma {:induction false} InvRunWith(cfg: Config, load: LoaderFunction, s: State, actions: seq<Action>)
    requires Inv(cfg, s)
    ensures Inv(cfg, RunWith(cfg, load, s, actions))
    decreases |actions|
  {
    if actions != [] {
      var a := Answer1(load, s, actions[0]);
      InvStep(cfg, s, a);
      InvRunWith(cfg, load, Step(cfg, s, a), actions[1..]);
    }
  }

  // Over any history of expiry, eviction, negative entries and invalidation: the map stays within
  // its capacity, and every Get has returned what the uncached chain returns.
  lemma EveryGetIsTheChain(cfg: Config, load: LoaderFunction, actions: seq<Action>)
    requires cfg.cap > 0 && cfg.loaders > 0 && NoHardErrors(load)
    ensures
      var s := RunWith(cfg, load, INITIAL, actions);
      && |s.data| <= cfg.cap
      && forall i :: 0 <= i < |s.served| ==> s.served[i].tagged.meta == Chain(cfg, load, 0, s.served[i].key)
  {
    InvRunWith(cfg, load, INITIAL, actions);
    CacheIsTransparent(cfg, load, INITIAL, actions);
  }

  // --- A Get that runs alone is the sequential Get ---

  function Loads(t: nat, answers: seq<Answer>): seq<Action> {
    if answers == [] then [] else [Load(t, answers[0])] + Loads(t, answers[1..])
  }

  // Only threads and bookkeeping differ.
  predicate Quiet(s: State, s2: State) { s2.now == s.now && s2.data == s.data && s2.served == s.served }

  lemma RunCons(cfg: Config, s: State, a: Action, rest: seq<Action>)
    ensures Run(cfg, s, [a] + rest) == Run(cfg, Step(cfg, s, a), rest)
  {
    assert ([a] + rest)[1..] == rest;
  }

  lemma {:induction false} LoadsIdle(cfg: Config, s: State, t: nat, answers: seq<Answer>)
    requires t !in s.threads || !s.threads[t].pc.Loading?
    ensures var s2 := Run(cfg, s, Loads(t, answers)); Quiet(s, s2) && s2.threads == s.threads
    decreases |answers|
  {
    if answers != [] {
      var a := Load(t, answers[0]);
      RunCons(cfg, s, a, Loads(t, answers[1..]));
      LoadsIdle(cfg, Step(cfg, s, a), t, answers[1..]);
    }
  }

  function MetaOf(answer: Answer): Metadata { if answer.Hit? then answer.meta else NEGATIVE }

  // The thread has gone with a hard error, or holds what the loaders' answers amount to.
  predicate Resolved(s: State, s2: State, t: nat, answers: seq<Answer>)
    requires t in s.threads
  {
    if Resolve(answers).HardError? then s2.threads == s.threads - {t}
    else
      && t in s2.threads && s2.threads - {t} == s.threads - {t}
      && s2.threads[t].key == s.threads[t].key && s2.threads[t].started == s.threads[t].started
      && s2.threads[t].pc.Answered? && s2.threads[t].pc.meta == MetaOf(Resolve(answers))
  }

  // The thread moved to another place, and nothing else changed.
  predicate MovedTo(s: State, s2: State, t: nat, pc: Pc)
    requires t in s.threads
  {
    Quiet(s, s2) && s2.threads == s.threads[t := s.threads[t].(pc := pc)]
  }

  lemma LoadOnce(cfg: Config, s: State, t: nat, answer: Answer)
    requires t in s.threads && s.threads[t].pc.Loading?
    ensures
      var s2 := Step(cfg, s, Load(t, answer));
      if answer.HardError? then Quiet(s, s2) && s2.threads == s.threads - {t}
      else if answer.Miss? && s.threads[t].pc.next + 1 < cfg.loaders then
        MovedTo(s, s2, t, Loading(s.threads[t].pc.next + 1))
      else MovedTo(s, s2, t, Answered(MetaOf(answer), s.step))
  {
  }

  lemma ResolvedFromMoved(s: State, s1: State, s2: State, t: nat, pc: Pc, answers: seq<Answer>)
    requires t in s.threads && MovedTo(s, s1, t, pc) && Quiet(s1, s2) && Resolved(s1, s2, t, answers)
    ensures Quiet(s, s2) && Resolved(s, s2, t, answers)
  {
    assert s1.threads - {t} == s.threads - {t};
  }

  lemma {:induction false} LoadsAlone(cfg: Config, s: State, t: nat, answers: seq<Answer>)
    requires t in s.threads && s.threads[t].pc.Loading?
    requires answers != [] && s.threads[t].pc.next + |answers| == cfg.loaders
    ensures var s2 := Run(cfg, s, Loads(t, answers)); Quiet(s, s2) && Resolved(s, s2, t, answers)
    decreases |answers|
  {
    var a := Load(t, answers[0]);
    var s1 := Step(cfg, s, a);
    var s2 := Run(cfg, s, Loads(t, answers));
    LoadOnce(cfg, s, t, answers[0]);
    RunCons(cfg, s, a, Loads(t, answers[1..]));
    if answers[0].Miss? && |answers| > 1 {
      LoadsAlone(cfg, s1, t, answers[1..]);
      ResolvedFromMoved(s, s1, s2, t, Loading(s.threads[t].pc.next + 1), answers);
    } else {
      LoadsIdle(cfg, s1, t, answers[1..]);
      LastLoad(s, s1, s2, t, answers);
    }
  }

  lemma LastLoad(s: State, s1: State, s2: State, t: nat, answers: seq<Answer>)
    requires t in s.threads && answers != [] && (answers[0].Miss? ==> |answers| == 1)
    requires if answers[0].HardError? then Quiet(s, s1) && s1.threads == s.threads - {t}
             else MovedTo(s, s1, t, Answered(MetaOf(answers[0]), s.step))
    requires Quiet(s1, s2) && s2.threads == s1.threads
    ensures Quiet(s, s2) && Resolved(s, s2, t, answers)
  {
    assert Resolve(answers) == answers[0] by {
      if answers[0].Miss? {
        assert answers[1..] == [] && Resolve([]) == Miss;
      }
    }
    if !answers[0].HardError? {
      assert s2.threads - {t} == s.threads - {t};
    }
  }

  // Time may pass between the chain's answer and its stamp.
  function Finish(t: nat, d: nat, victim: Key): seq<Action> { [Tick(d), Stamp(t), Store(t, victim)] }

  lemma FinishIdle(cfg: Config, s: State, t: nat, d: nat, victim: Key)
    requires t !in s.threads
    ensures
      var s2 := Run(cfg, s, Finish(t, d, victim));
      s2.data == s.data && s2.served == s.served && s2.threads == s.threads
  {
    ThreeSteps(cfg, s, Tick(d), Stamp(t), Store(t, victim));
  }

  lemma StampAlone(cfg: Config, s: State, t: nat)
    requires t in s.threads && s.threads[t].pc.Answered?
    ensures MovedTo(s, Step(cfg, s, Stamp(t)), t, Stamped(Tagged(s.threads[t].pc.meta, s.now, s.threads[t].pc.born)))
  {
  }

  // The stamped answer of t is stored and returned.
  ghost predicate StoredNow(cfg: Config, s: State, s2: State, t: nat, victim: Key)
    requires t in s.threads && s.threads[t].pc.Stamped?
  {
    var th := s.threads[t];
    && s2.data == Put(s.data, cfg.cap, th.key, th.pc.tagged, victim)
    && s2.served == s.served + [Served(th.key, th.started, s.now, th.pc.tagged, false)]
  }

  lemma StoreAlone(cfg: Config, s: State, t: nat, victim: Key)
    requires t in s.threads && s.threads[t].pc.Stamped? && (|s.data| >= cfg.cap ==> victim in s.data)
    ensures
      var s2 := Step(cfg, s, Store(t, victim));
      StoredNow(cfg, s, s2, t, victim) && s2.threads == s.threads - {t}
  {
  }

  // From the answer to its stamp and its storing, as states.
  lemma FinishedBy(cfg: Config, s: State, s1: State, s2: State, s3: State, t: nat, d: nat, victim: Key)
    requires t in s.threads && s.threads[t].pc.Answered?
    requires s1.now == s.now + d && s1.data == s.data && s1.served == s.served && s1.threads == s.threads
    requires MovedTo(s1, s2, t, Stamped(Tagged(s.threads[t].pc.meta, s1.now, s.threads[t].pc.born)))
    requires StoredNow(cfg, s2, s3, t, victim)
    ensures
      var th := s.threads[t];
      StoredBy(cfg, s, s3, th.key, th.started, th.pc.meta, d, th.pc.born, victim)
  {
  }

  lemma OnlyMoved(s: State, s2: State, t: nat, pc: Pc)
    requires t in s.threads && MovedTo(s, s2, t, pc)
    ensures s2.threads - {t} == s.threads - {t}
  {
  }

  lemma FinishAlone(cfg: Config, s: State, t: nat, d: nat, victim: Key)
    requires t in s.threads && s.threads[t].pc.Answered? && (|s.data| >= cfg.cap ==> victim in s.data)
    ensures
      var s2 := Run(cfg, s, Finish(t, d, victim));
      var th := s.threads[t];
      StoredBy(cfg, s, s2, th.key, th.started, th.pc.meta, d, th.pc.born, victim) && s2.threads == s.threads - {t}
  {
    ThreeSteps(cfg, s, Tick(d), Stamp(t), Store(t, victim));
    var s1 := Step(cfg, s, Tick(d));
    var s2 := Step(cfg, s1, Stamp(t));
    StampAlone(cfg, s1, t);
    StoreAlone(cfg, s2, t, victim);
    OnlyMoved(s1, s2, t, s2.threads[t].pc);
    FinishedBy(cfg, s, s1, s2, Step(cfg, s2, Store(t, victim)), t, d, victim);
  }

  function GetActions(t: nat, key: Key, answers: seq<Answer>, d: nat, victim: Key): seq<Action> {
    [Start(t, key)] + ([Check(t)] + (Loads(t, answers) + Finish(t, d, victim)))
  }

  // What a Get does to the map and returns, as the contract of the sequential code says it.
  ghost predicate GetEffect(cfg: Config, s: State, s2: State, key: Key, answers: seq<Answer>, d: nat, victim: Key) {
    var answer := Resolve(answers);
    if key in s.data && s.now - s.data[key].cachedAt < cfg.ttl then
      s2.data == s.data && s2.served == s.served + [Served(key, s.step, s.now, s.data[key], true)]
    else if answer.HardError? then s2.data == s.data && s2.served == s.served
    else exists born: nat :: StoredBy(cfg, s, s2, key, s.step, MetaOf(answer), d, born, victim)
  }

  // An answer loaded at step `born`, stamped d later, stored and returned.
  ghost predicate StoredBy(cfg: Config, s: State, s2: State, key: Key, started: nat, meta: Metadata, d: nat,
                           born: nat, victim: Key) {
    var e := Tagged(meta, s.now + d, born);
    && s2.data == Put(s.data, cfg.cap, key, e, victim)
    && s2.served == s.served + [Served(key, started, s.now + d, e, false)]
  }

  lemma StartOnce(cfg: Config, s: State, t: nat, key: Key)
    requires t !in s.threads
    ensures
      var s2 := Step(cfg, s, Start(t, key));
      var found := if key in s.data then Some(s.data[key]) else None;
      Quiet(s, s2) && s2.threads == s.threads[t := Thread(key, s.step, Looked(found))]
  {
  }

  lemma CheckOnce(cfg: Config, s: State, t: nat)
    requires t in s.threads && s.threads[t].pc.Looked?
    ensures
      var s2 := Step(cfg, s, Check(t));
      var th := s.threads[t];
      var found := th.pc.found;
      s2.now == s.now && s2.data == s.data &&
      if found.Some? && Fresh(found.value.cachedAt, s.now, cfg.ttl) then
        s2.threads == s.threads - {t} && s2.served == s.served + [Served(th.key, th.started, s.now, found.value, true)]
      else MovedTo(s, s2, t, Loading(0))
  {
  }

  // Behind the check: served from the map and gone, or about to load.
  lemma CheckAlone(cfg: Config, s: State, t: nat, key: Key)
    requires t !in s.threads
    ensures
      var s2 := Step(cfg, Step(cfg, s, Start(t, key)), Check(t));
      s2.now == s.now && s2.data == s.data &&
      if key in s.data && Fresh(s.data[key].cachedAt, s.now, cfg.ttl) then
        s2.threads == s.threads && s2.served == s.served + [Served(key, s.step, s.now, s.data[key], true)]
      else s2.threads == s.threads[t := Thread(key, s.step, Loading(0))] && s2.served == s.served
  {
    var s1 := Step(cfg, s, Start(t, key));
    StartOnce(cfg, s, t, key);
    CheckOnce(cfg, s1, t);
    assert s1.threads - {t} == s.threads;
  }

  lemma RunParts(cfg: Config, s: State, t: nat, key: Key, answers: seq<Answer>, d: nat, victim: Key)
    ensures
      var s2 := Step(cfg, Step(cfg, s, Start(t, key)), Check(t));
      Run(cfg, s, GetActions(t, key, answers, d, victim)) ==
      Run(cfg, Run(cfg, s2, Loads(t, answers)), Finish(t, d, victim))
  {
    var s1 := Step(cfg, s, Start(t, key));
    RunCons(cfg, s, Start(t, key), [Check(t)] + (Loads(t, answers) + Finish(t, d, victim)));
    RunCons(cfg, s1, Check(t), Loads(t, answers) + Finish(t, d, victim));
    RunAppend(cfg, Step(cfg, s1, Check(t)), Loads(t, answers), Finish(t, d, victim));
  }

  lemma StoredEarlier(cfg: Config, s: State, s3: State, s4: State, key: Key, started: nat, meta: Metadata, d: nat,
                      born: nat, victim: Key)
    requires Quiet(s, s3) && StoredBy(cfg, s3, s4, key, started, meta, d, born, victim)
    ensures StoredBy(cfg, s, s4, key, started, meta, d, born, victim)
  {
  }

  lemma ThreadOnly(s: State, s2: State, t: nat, th: Thread)
    requires t !in s.threads && s2.threads == s.threads[t := th]
    ensures s2.threads - {t} == s.threads
  {
  }

  // A Get that has to load: it ends with a hard error,
  lemma FailingGet(cfg: Config, s: State, s2: State, t: nat, key: Key, answers: seq<Answer>, d: nat, victim: Key)
    requires t !in s.threads && |answers| == cfg.loaders > 0 && Resolve(answers).HardError?
    requires Quiet(s, s2) && s2.threads == s.threads[t := Thread(key, s.step, Loading(0))]
    ensures
      var s4 := Run(cfg, Run(cfg, s2, Loads(t, answers)), Finish(t, d, victim));
      s4.threads == s.threads && s4.data == s.data && s4.served == s.served
  {
    ThreadOnly(s, s2, t, Thread(key, s.step, Loading(0)));
    LoadsAlone(cfg, s2, t, answers);
    FinishIdle(cfg, Run(cfg, s2, Loads(t, answers)), t, d, victim);
  }

  // or stores what the chain answered.
  lemma LoadingGet(cfg: Config, s: State, s2: State, t: nat, key: Key, answers: seq<Answer>, d: nat, victim: Key)
    returns (born: nat)
    requires t !in s.threads && |answers| == cfg.loaders > 0 && !Resolve(answers).HardError?
    requires |s.data| >= cfg.cap ==> victim in s.data
    requires Quiet(s, s2) && s2.threads == s.threads[t := Thread(key, s.step, Loading(0))]
    ensures
      var s4 := Run(cfg, Run(cfg, s2, Loads(t, answers)), Finish(t, d, victim));
      s4.threads == s.threads && StoredBy(cfg, s, s4, key, s.step, MetaOf(Resolve(answers)), d, born, victim)
  {
    var s3 := Run(cfg, s2, Loads(t, answers));
    ThreadOnly(s, s2, t, Thread(key, s.step, Loading(0)));
    LoadsAlone(cfg, s2, t, answers);
    FinishAlone(cfg, s3, t, d, victim);
    born := s3.threads[t].pc.born;
    var s4 := Run(cfg, s3, Finish(t, d, victim));
    StoredEarlier(cfg, s, s3, s4, key, s.step, MetaOf(Resolve(answers)), d, born, victim);
  }

  lemma AloneIsGet(cfg: Config, s: State, t: nat, key: Key, answers: seq<Answer>, d: nat, victim: Key)
    requires t !in s.threads && |answers| == cfg.loaders > 0 && (|s.data| >= cfg.cap ==> victim in s.data)
    ensures
      var s2 := Run(cfg, s, GetActions(t, key, answers, d, victim));
      s2.threads == s.threads && GetEffect(cfg, s, s2, key, answers, d, victim)
  {
    var s2 := Step(cfg, Step(cfg, s, Start(t, key)), Check(t));
    RunParts(cfg, s, t, key, answers, d, victim);
    CheckAlone(cfg, s, t, key);
    if key in s.data && Fresh(s.data[key].cachedAt, s.now, cfg.ttl) {
      LoadsIdle(cfg, s2, t, answers);
      FinishIdle(cfg, Run(cfg, s2, Loads(t, answers)), t, d, victim);
    } else if Resolve(answers).HardError? {
      FailingGet(cfg, s, s2, t, key, answers, d, victim);
    } else {
      var _ := LoadingGet(cfg, s, s2, t, key, answers, d, victim);
    }
  }
}
