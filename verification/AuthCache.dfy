// The in-process layer of the auth cache: its sequential code, and the interleavings of
// concurrent Gets and Invalidates with the loads outside the lock.
module AuthCache {
  import opened Wrappers

  type Key = string

  // Metadata as far as the cache looks at it; `fields` stands for the rest.
  datatype Metadata = Metadata(valid: bool, fields: string)

  const NEGATIVE := Metadata(false, "")

  datatype Answer = Hit(meta: Metadata) | Miss | HardError(error: string)

  datatype Entry = Entry(meta: Metadata, cachedAt: int)

  predicate Fresh(cachedAt: int, now: int, ttl: int) { now - cachedAt < ttl }

  // Storing under the lock: a full map first drops an entry of its choice.
  function Put<V>(data: map<Key, V>, cap: nat, k: Key, v: V, victim: Key): map<Key, V> {
    (if |data| >= cap then data - {victim} else data)[k := v]
  }

  lemma PutBounded<V>(data: map<Key, V>, cap: nat, k: Key, v: V, victim: Key)
    requires 0 < cap && |data| <= cap && (|data| >= cap ==> victim in data)
    ensures |Put(data, cap, k, v, victim)| <= cap
  {
    var base := if |data| >= cap then data - {victim} else data;
    if |data| >= cap {
      assert data.Keys == base.Keys + {victim};
    }
    assert Put(data, cap, k, v, victim).Keys == base.Keys + {k};
    assert |base.Keys + {k}| <= |base.Keys| + 1;
  }

  // The entry is stored, no other entry appears or changes, and only the victim may go.
  lemma PutStores<V>(data: map<Key, V>, cap: nat, k: Key, v: V, victim: Key)
    ensures
      var after := Put(data, cap, k, v, victim);
      && k in after && after[k] == v
      && (forall j :: j in after && j != k ==> j in data && after[j] == data[j])
      && (forall j :: j in data && (j != victim || |data| < cap) ==> j in after)
  {
  }

  // What the loaders' answers amount to: the first that is not a miss decides.
  function Resolve(answers: seq<Answer>): Answer {
    if answers == [] then Miss
    else if answers[0].Miss? then Resolve(answers[1..])
    else answers[0]
  }

  lemma {:induction false} ResolveSkipsMisses(answers: seq<Answer>, k: nat)
    requires k <= |answers| && forall i :: 0 <= i < k ==> answers[i].Miss?
    ensures Resolve(answers) == Resolve(answers[k..])
    decreases k
  {
    if k > 0 {
      ResolveSkipsMisses(answers[1..], k - 1);
      assert answers[1..][k - 1..] == answers[k..];
    }
  }

  predicate AllMiss(answers: seq<Answer>) { forall i :: 0 <= i < |answers| ==> answers[i].Miss? }

  // Loader k is the first that does not miss.
  predicate FirstAnswer(answers: seq<Answer>, k: nat) {
    k < |answers| && !answers[k].Miss? && forall i :: 0 <= i < k ==> answers[i].Miss?
  }

  lemma ResolveIsFirstAnswer(answers: seq<Answer>)
    ensures AllMiss(answers) ==> Resolve(answers) == Miss
    ensures forall k: nat :: FirstAnswer(answers, k) ==> Resolve(answers) == answers[k]
  {
    if AllMiss(answers) {
      ResolveSkipsMisses(answers, |answers|);
    }
    forall k: nat | FirstAnswer(answers, k)
      ensures Resolve(answers) == answers[k]
    {
      ResolveSkipsMisses(answers, k);
    }
  }

  class Cache {
    const ttl: int
    const cap: nat
    const loaders: nat
    var data: map<Key, Entry>

    constructor (cap: nat, ttl: int, loaders: nat)
      requires cap > 0 && loaders > 0
      ensures this.cap == cap && this.ttl == ttl && this.loaders == loaders && data == map[]
    {
      this.cap, this.ttl, this.loaders := cap, ttl, loaders;
      data := map[];
    }

    static method NewCache(size: int, ttl: int, loaders: nat) returns (c: Cache?)
      ensures c == null <==> size <= 0 || loaders == 0
      ensures c != null ==> fresh(c) && c.cap == size && c.ttl == ttl && c.loaders == loaders && c.data == map[]
    {
      if size <= 0 || loaders == 0 { return null; }
      c := new Cache(size, ttl, loaders);
    }

    predicate Bounded()
      reads this
    {
      0 < cap && |data| <= cap
    }

    // `answers` is what the loaders would answer, `readAt` and `stampAt` are the two clock
    // readings.
    method Get(key: Key, answers: seq<Answer>, readAt: int, stampAt: int) returns (r: Result<Metadata, string>)
      requires Bounded() && |answers| == loaders
      modifies this
      ensures Bounded()
      ensures
        var hit := key in old(data) && readAt - old(data)[key].cachedAt < ttl;
        var answer := Resolve(answers);
        if hit then r == Ok(old(data)[key].meta) && data == old(data)
        else if answer.HardError? then r == Err(answer.error) && data == old(data)
        else
          var meta := if answer.Hit? then answer.meta else NEGATIVE;
          r == Ok(meta) && exists victim :: Stored(old(data), key, Entry(meta, stampAt), victim)
      ensures
        !(key in old(data) && readAt - old(data)[key].cachedAt < ttl) ==>
          && (AllMiss(answers) ==> r.Ok? && !r.value.valid && key in data && !data[key].meta.valid)
          && forall k: nat :: FirstAnswer(answers, k) ==>
               match answers[k]
               case Hit(meta) => r == Ok(meta)
               case HardError(error) => r == Err(error)
               case Miss => false
    {
      ResolveIsFirstAnswer(answers);
      if key in data && Fresh(data[key].cachedAt, readAt, ttl) { return Ok(data[key].meta); }
      for k := 0 to |answers|
        invariant data == old(data)
        invariant forall i :: 0 <= i < k ==> answers[i].Miss?
      {
        ResolveSkipsMisses(answers, k);
        match answers[k]
        case Hit(meta) =>
          PutEntry(key, Entry(meta, stampAt));
          return Ok(meta);
        case HardError(error) => return Err(error);
        case Miss =>
      }
      ResolveSkipsMisses(answers, |answers|);
      PutEntry(key, Entry(NEGATIVE, stampAt));
      r := Ok(NEGATIVE);
    }

    // The map is the old one with the entry stored and at most one other entry evicted.
    ghost predicate Stored(before: map<Key, Entry>, key: Key, e: Entry, victim: Key)
      reads this
    {
      (|before| >= cap ==> victim in before) && data == Put(before, cap, key, e, victim)
    }

    method Invalidate(key: Key)
      requires Bounded()
      modifies this
      ensures Bounded() && data == old(data) - {key}
    {
      RemoveBounded(data, key);
      data := data - {key};
    }

    method PutEntry(key: Key, e: Entry)
      requires Bounded()
      modifies this
      ensures Bounded() && exists victim :: Stored(old(data), key, e, victim)
    {
      var victim := key;
      if |data| >= cap {
        assert data.Keys != {};
        victim :| victim in data;
        data := data - {victim};
      }
      data := data[key := e];
      PutBounded(old(data), cap, key, e, victim);
      assert Stored(old(data), key, e, victim);
    }
  }

  lemma RemoveBounded<V>(data: map<Key, V>, k: Key)
    ensures |data - {k}| <= |data|
  {
    assert (data - {k}).Keys == data.Keys - {k};
  }
}
