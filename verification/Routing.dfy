// Stable ranking by a key, as a specification and as the gateway's in-place sort.
module Ranking {
  // Insertion behind everything that is not greater: what a stable sort does to a new last
  // element.
  function Insert<T>(sorted: seq<T>, x: T, key: T -> real): seq<T> {
    if sorted == [] || key(sorted[|sorted| - 1]) <= key(x) then sorted + [x]
    else Insert(sorted[..|sorted| - 1], x, key) + [sorted[|sorted| - 1]]
  }

  function StableSort<T>(s: seq<T>, key: T -> real): seq<T> {
    if s == [] then [] else Insert(StableSort(s[..|s| - 1], key), s[|s| - 1], key)
  }

  predicate Sorted<T>(s: seq<T>, key: T -> real) {
    forall i, j :: 0 <= i < j < |s| ==> key(s[i]) <= key(s[j])
  }

  // The elements that satisfy p, in order.
  function Filter<T>(s: seq<T>, p: T -> bool): (r: seq<T>)
    ensures |r| <= |s|
    ensures forall x :: x in r ==> x in s && p(x)
    ensures forall x :: x in s && p(x) ==> x in r
  {
    if s == [] then []
    else Filter(s[..|s| - 1], p) + if p(s[|s| - 1]) then [s[|s| - 1]] else []
  }

  lemma FilterSnoc<T>(s: seq<T>, x: T, p: T -> bool)
    ensures Filter(s + [x], p) == if p(x) then Filter(s, p) + [x] else Filter(s, p)
  {
    assert (s + [x])[..|s|] == s;
    assert Filter(s, p) + [] == Filter(s, p);
  }

  lemma InsertSnoc<T>(init: seq<T>, last: T, x: T, key: T -> real)
    ensures Insert(init + [last], x, key) ==
            if key(last) <= key(x) then init + [last] + [x] else Insert(init, x, key) + [last]
  {
    assert (init + [last])[..|init|] == init;
  }

  lemma SortSnoc<T>(s: seq<T>, x: T, key: T -> real)
    ensures StableSort(s + [x], key) == Insert(StableSort(s, key), x, key)
  {
    assert (s + [x])[..|s|] == s;
  }

  lemma Split<T>(s: seq<T>)
    requires s != []
    ensures s == s[..|s| - 1] + [s[|s| - 1]]
  {
  }

  predicate Greatest<T>(s: seq<T>, bound: real, key: T -> real) {
    forall i :: 0 <= i < |s| ==> key(s[i]) <= bound
  }

  lemma SortedSnoc<T>(s: seq<T>, x: T, key: T -> real)
    requires Sorted(s, key) && Greatest(s, key(x), key)
    ensures Sorted(s + [x], key)
  {
  }

  lemma SortedInit<T>(init: seq<T>, last: T, key: T -> real)
    requires Sorted(init + [last], key)
    ensures Sorted(init, key) && Greatest(init, key(last), key)
  {
    var s := init + [last];
    assert forall i :: 0 <= i < |init| ==> s[i] == init[i];
    assert s[|init|] == last;
  }

  lemma GreatestSnoc<T>(s: seq<T>, x: T, bound: real, key: T -> real)
    requires Greatest(s, bound, key) && key(x) <= bound
    ensures Greatest(s + [x], bound, key)
  {
  }

  lemma {:induction false} InsertGreatest<T>(s: seq<T>, x: T, bound: real, key: T -> real)
    requires Greatest(s, bound, key) && key(x) <= bound
    ensures Greatest(Insert(s, x, key), bound, key)
    decreases |s|
  {
    if s == [] || key(s[|s| - 1]) <= key(x) {
      GreatestSnoc(s, x, bound, key);
    } else {
      InsertGreatest(s[..|s| - 1], x, bound, key);
      GreatestSnoc(Insert(s[..|s| - 1], x, key), s[|s| - 1], bound, key);
    }
  }

  lemma {:induction false} InsertSorted<T>(s: seq<T>, x: T, key: T -> real)
    requires Sorted(s, key)
    ensures Sorted(Insert(s, x, key), key) && |Insert(s, x, key)| == |s| + 1
    decreases |s|
  {
    if s != [] {
      var init, last := s[..|s| - 1], s[|s| - 1];
      Split(s);
      SortedInit(init, last, key);
      if key(last) <= key(x) {
        GreatestSnoc(init, last, key(last), key);
        SortedSnoc(s, x, key);
      } else {
        InsertSorted(init, x, key);
        InsertGreatest(init, x, key(last), key);
        SortedSnoc(Insert(init, x, key), last, key);
      }
    }
  }

  lemma {:induction false} SortSorted<T>(s: seq<T>, key: T -> real)
    ensures Sorted(StableSort(s, key), key) && |StableSort(s, key)| == |s|
  {
    if s != [] {
      SortSorted(s[..|s| - 1], key);
      InsertSorted(StableSort(s[..|s| - 1], key), s[|s| - 1], key);
    }
  }

  // --- Filtering commutes with stable sorting ---

  lemma {:induction false} FilterGreatest<T>(s: seq<T>, bound: real, key: T -> real, p: T -> bool)
    requires Greatest(s, bound, key)
    ensures Greatest(Filter(s, p), bound, key)
  {
    if s != [] {
      FilterGreatest(s[..|s| - 1], bound, key, p);
    }
  }

  lemma InsertBehind<T>(s: seq<T>, x: T, key: T -> real)
    requires Greatest(s, key(x), key)
    ensures Insert(s, x, key) == s + [x]
  {
  }

  lemma {:induction false} FilterInsert<T>(s: seq<T>, x: T, key: T -> real, p: T -> bool)
    requires Sorted(s, key)
    ensures Filter(Insert(s, x, key), p) ==
            if p(x) then Insert(Filter(s, p), x, key) else Filter(s, p)
    decreases |s|
  {
    if s == [] {
      assert Insert(s, x, key) == s + [x];
      FilterSnoc(s, x, p);
      assert Filter(s, p) == s;
    } else {
      var init, last := s[..|s| - 1], s[|s| - 1];
      Split(s);
      SortedInit(init, last, key);
      InsertSnoc(init, last, x, key);
      FilterSnoc(init, last, p);
      if key(last) <= key(x) {
        FilterSnoc(s, x, p);
        assert Greatest(s, key(x), key);
        FilterGreatest(s, key(x), key, p);
        InsertBehind(Filter(s, p), x, key);
      } else {
        FilterInsert(init, x, key, p);
        FilterSnoc(Insert(init, x, key), last, p);
        InsertSnoc(Filter(init, p), last, x, key);
      }
    }
  }

  // Sorting what survives a filter is filtering what was sorted.
  lemma {:induction false} SortFilterCommute<T>(s: seq<T>, key: T -> real, p: T -> bool)
    ensures StableSort(Filter(s, p), key) == Filter(StableSort(s, key), p)
  {
    if s != [] {
      var init, x := s[..|s| - 1], s[|s| - 1];
      Split(s);
      SortFilterCommute(init, key, p);
      SortSorted(init, key);
      SortSnoc(init, x, key);
      FilterSnoc(init, x, p);
      FilterInsert(StableSort(init, key), x, key, p);
      if p(x) { SortSnoc(Filter(init, p), x, key); }
    }
  }

  // --- Stability, and that it pins the result down ---

  function KeyIs<T>(key: T -> real, k: real): T -> bool { x => key(x) == k }

  // The elements of one key, in order.
  function Run<T>(s: seq<T>, key: T -> real, k: real): seq<T> { Filter(s, KeyIs(key, k)) }

  ghost predicate SameRuns<T>(s: seq<T>, r: seq<T>, key: T -> real) {
    forall k: real :: Run(s, key, k) == Run(r, key, k)
  }

  lemma {:induction false} SortConstant<T>(s: seq<T>, key: T -> real)
    requires Sorted(s, key)
    ensures StableSort(s, key) == s
  {
    if s != [] {
      var init, x := s[..|s| - 1], s[|s| - 1];
      Split(s);
      SortedInit(init, x, key);
      SortConstant(init, key);
      InsertBehind(init, x, key);
    }
  }

  lemma RunSorted<T>(s: seq<T>, key: T -> real, k: real)
    ensures Sorted(Run(s, key, k), key)
  {
    var r := Run(s, key, k);
    forall i | 0 <= i < |r|
      ensures key(r[i]) == k
    {
      assert r[i] in r;
    }
  }

  // The result of the stable sort is sorted, and elements of equal key keep their order.
  lemma SortIsStable<T>(s: seq<T>, key: T -> real)
    ensures Sorted(StableSort(s, key), key) && SameRuns(s, StableSort(s, key), key)
  {
    SortSorted(s, key);
    forall k: real
      ensures Run(s, key, k) == Run(StableSort(s, key), key, k)
    {
      SortFilterCommute(s, key, KeyIs(key, k));
      RunSorted(s, key, k);
      SortConstant(Run(s, key, k), key);
    }
  }

  lemma InRun<T>(s: seq<T>, i: nat, key: T -> real)
    requires i < |s|
    ensures s[i] in Run(s, key, key(s[i]))
  {
    assert s[i] in s;
  }

  lemma LastIsGreatest<T>(a: seq<T>, b: seq<T>, key: T -> real)
    requires Sorted(a, key) && Sorted(b, key) && SameRuns(a, b, key) && a != []
    ensures b != [] && key(a[|a| - 1]) == key(b[|b| - 1])
  {
    var x := a[|a| - 1];
    InRun(a, |a| - 1, key);
    assert Run(a, key, key(x)) == Run(b, key, key(x));
    assert x in b;
    var y := b[|b| - 1];
    InRun(b, |b| - 1, key);
    assert Run(a, key, key(y)) == Run(b, key, key(y));
    assert y in a;
    var i :| 0 <= i < |b| && b[i] == x;
    var j :| 0 <= j < |a| && a[j] == y;
  }

  lemma RunsOfInit<T>(a: seq<T>, b: seq<T>, x: T, y: T, key: T -> real)
    requires SameRuns(a + [x], b + [y], key) && key(x) == key(y)
    ensures x == y && SameRuns(a, b, key)
  {
    forall k: real
      ensures Run(a, key, k) == Run(b, key, k) && x == y
    {
      FilterSnoc(a, x, KeyIs(key, k));
      FilterSnoc(b, y, KeyIs(key, k));
      FilterSnoc(a, x, KeyIs(key, key(x)));
      FilterSnoc(b, y, KeyIs(key, key(x)));
      assert Run(a + [x], key, k) == Run(b + [y], key, k);
      assert Run(a + [x], key, key(x)) == Run(b + [y], key, key(x));
      SameSnoc(Run(a, key, key(x)), x, Run(b, key, key(x)), y);
    }
    assert Run(a, key, 0.0) == Run(b, key, 0.0);
  }

  lemma SameSnoc<T>(a: seq<T>, x: T, b: seq<T>, y: T)
    requires a + [x] == b + [y]
    ensures a == b && x == y
  {
    assert (a + [x])[..|a|] == a && (b + [y])[..|b|] == b;
    assert (a + [x])[|a|] == x && (b + [y])[|b|] == y;
  }

  // Any sorted sequence with the same runs of equal keys is the stable sort: whatever
  // algorithm a library uses, this is what it computes.
  lemma {:induction false} StableSortUnique<T>(a: seq<T>, b: seq<T>, key: T -> real)
    requires Sorted(a, key) && Sorted(b, key) && SameRuns(a, b, key)
    ensures a == b
    decreases |a|
  {
    if a == [] {
      if b != [] { LastIsGreatest(b, a, key); }
    } else {
      LastIsGreatest(a, b, key);
      var a', x := a[..|a| - 1], a[|a| - 1];
      var b', y := b[..|b| - 1], b[|b| - 1];
      Split(a);
      Split(b);
      RunsOfInit(a', b', x, y, key);
      SortedInit(a', x, key);
      SortedInit(b', y, key);
      StableSortUnique(a', b', key);
    }
  }
}

// The gateway's strategies: a copy, stably sorted in place.
module GatewayStrategies {
  import opened Ranking
  import opened Text

  datatype Target = Target(provider: string, model: string)

  // The adjacent-swap insertion sort of sort.SliceStable.
  method SliceStable<T>(out: array<T>, key: T -> real)
    modifies out
    ensures out[..] == StableSort(old(out[..]), key)
  {
    ghost var before := out[..];
    SortPrefixStart(before, key);
    for i := 0 to out.Length
      invariant out[..] == StableSort(before[..i], key) + before[i..]
    {
      SortPrefix(before, i, key);
      Sift(out, i, StableSort(before[..i], key), before[i], before[i + 1..], key);
    }
    assert before[..out.Length] == before;
    AppendEmpty(StableSort(before, key));
  }

  lemma SortPrefixStart<T>(before: seq<T>, key: T -> real)
    ensures before == StableSort(before[..0], key) + before[0..]
  {
    assert before[..0] == [] && before[0..] == before;
    AppendEmpty(before);
  }

  lemma SortPrefix<T>(before: seq<T>, i: nat, key: T -> real)
    requires i < |before|
    ensures |StableSort(before[..i], key)| == i
    ensures StableSort(before[..i], key) + before[i..] == StableSort(before[..i], key) + [before[i]] + before[i + 1..]
    ensures StableSort(before[..i + 1], key) == Insert(StableSort(before[..i], key), before[i], key)
  {
    SortSorted(before[..i], key);
    assert before[..i + 1] == before[..i] + [before[i]];
    SortSnoc(before[..i], before[i], key);
    assert before[i..] == [before[i]] + before[i + 1..];
    Associate(StableSort(before[..i], key), [before[i]], before[i + 1..]);
  }

  // The array from `sorted` on, with x lifted out and put back at j.
  ghost predicate Slid<T>(s: seq<T>, sorted: seq<T>, x: T, j: nat, rest: seq<T>) {
    j <= |sorted| && s == sorted[..j] + [x] + sorted[j..] + rest
  }

  method SwapBack<T>(out: array<T>, j: nat)
    requires 0 < j < out.Length
    modifies out
    ensures out[..] == old(out[..])[j := old(out[j - 1])][j - 1 := old(out[j])]
  {
    out[j], out[j - 1] := out[j - 1], out[j];
  }

  // The inner loop: swaps the element at i to the left past everything greater.
  method Sift<T>(out: array<T>, i: nat, ghost sorted: seq<T>, ghost x: T, ghost rest: seq<T>, key: T -> real)
    requires |sorted| == i && out[..] == sorted + [x] + rest
    modifies out
    ensures out[..] == Insert(sorted, x, key) + rest
  {
    var j := i;
    ghost var target := Insert(sorted, x, key);
    SlidStart(out[..], sorted, x, rest);
    PassedStart(target, sorted, x, key);
    SlidAt(out[..], sorted, x, j, rest);
    while j > 0 && key(out[j]) < key(out[j - 1])
      invariant 0 <= j <= i < out.Length && Slid(out[..], sorted, x, j, rest)
      invariant out[j] == x && (j > 0 ==> out[j - 1] == sorted[j - 1])
      invariant Passed(target, sorted, x, j, key)
    {
      InsertPasses(target, sorted, j, x, key);
      SlidSwap(out[..], sorted, x, j, rest);
      SwapBack(out, j);
      j := j - 1;
      SlidAt(out[..], sorted, x, j, rest);
    }
    SlidEnd(out[..], target, sorted, x, j, rest, key);
  }

  lemma SlidStart<T>(s: seq<T>, sorted: seq<T>, x: T, rest: seq<T>)
    requires s == sorted + [x] + rest
    ensures Slid(s, sorted, x, |sorted|, rest)
  {
    assert sorted[..|sorted|] == sorted;
    assert sorted[|sorted|..] == [];
    AppendEmpty(sorted + [x]);
  }

  lemma SlidAt<T>(s: seq<T>, sorted: seq<T>, x: T, j: nat, rest: seq<T>)
    requires Slid(s, sorted, x, j, rest)
    ensures |s| == |sorted| + 1 + |rest| && s[j] == x && (j > 0 ==> s[j - 1] == sorted[j - 1])
  {
    assert j > 0 ==> s[j - 1] == sorted[..j][j - 1];
  }

  lemma SlidSwap<T>(s: seq<T>, sorted: seq<T>, x: T, j: nat, rest: seq<T>)
    requires 0 < j && Slid(s, sorted, x, j, rest)
    requires j < |s|
    ensures Slid(s[j := s[j - 1]][j - 1 := s[j]], sorted, x, j - 1, rest)
  {
    var t := s[j := s[j - 1]][j - 1 := s[j]];
    var u := sorted[..j - 1] + [x] + sorted[j - 1..] + rest;
    SlidAt(s, sorted, x, j, rest);
    forall m | 0 <= m < |t|
      ensures t[m] == u[m]
    {
    }
    assert t == u;
  }

  lemma PassedStart<T>(target: seq<T>, sorted: seq<T>, x: T, key: T -> real)
    requires target == Insert(sorted, x, key)
    ensures Passed(target, sorted, x, |sorted|, key)
  {
    assert sorted[..|sorted|] == sorted;
    AppendEmpty(target);
  }

  lemma SlidEnd<T>(s: seq<T>, target: seq<T>, sorted: seq<T>, x: T, j: nat, rest: seq<T>, key: T -> real)
    requires Slid(s, sorted, x, j, rest) && (j > 0 ==> key(sorted[j - 1]) <= key(x))
    requires Passed(target, sorted, x, j, key)
    ensures s == target + rest
  {
    assert Insert(sorted[..j], x, key) == sorted[..j] + [x];
  }

  // What is still to be done when x has passed everything from j on.
  ghost predicate Passed<T>(target: seq<T>, sorted: seq<T>, x: T, j: nat, key: T -> real) {
    j <= |sorted| && target == Insert(sorted[..j], x, key) + sorted[j..]
  }

  lemma InsertPasses<T>(target: seq<T>, sorted: seq<T>, j: nat, x: T, key: T -> real)
    requires 0 < j && Passed(target, sorted, x, j, key) && key(x) < key(sorted[j - 1])
    ensures Passed(target, sorted, x, j - 1, key)
  {
    var init, last, tail := sorted[..j - 1], sorted[j - 1], sorted[j..];
    assert sorted[..j] == init + [last];
    assert sorted[j - 1..] == [last] + tail;
    Pass(target, init, last, tail, x, key);
  }

  lemma Pass<T>(target: seq<T>, init: seq<T>, last: T, tail: seq<T>, x: T, key: T -> real)
    requires key(x) < key(last) && target == Insert(init + [last], x, key) + tail
    ensures target == Insert(init, x, key) + ([last] + tail)
  {
    InsertSnoc(init, last, x, key);
    Associate(Insert(init, x, key), [last], tail);
  }

  method Copy<T>(s: array<T>) returns (out: array<T>)
    ensures fresh(out) && out[..] == s[..]
  {
    out := new T[s.Length](i requires 0 <= i < s.Length reads s => s[i]);
  }

  lemma {:induction false} FilterSame<T>(s: seq<T>, p: T -> bool, q: T -> bool)
    requires forall x :: x in s ==> p(x) == q(x)
    ensures Filter(s, p) == Filter(s, q)
  {
    if s != [] {
      FilterSame(s[..|s| - 1], p, q);
    }
  }

  // The order of equal keys does not depend on which way they are ranked.
  lemma RunsOfDescending<T>(s: seq<T>, score: T -> real, k: real)
    ensures Run(s, Descending(score), -k) == Run(s, score, k)
  {
    FilterSame(s, KeyIs(Descending(score), -k), KeyIs(score, k));
  }

  lemma DescendingIsStable(s: seq<Target>, score: Target -> real)
    ensures
      var out := StableSort(s, Descending(score));
      && (forall i, j :: 0 <= i < j < |out| ==> score(out[i]) >= score(out[j]))
      && SameRuns(s, out, score)
  {
    var out := StableSort(s, Descending(score));
    SortIsStable(s, Descending(score));
    forall i, j | 0 <= i < j < |out|
      ensures score(out[i]) >= score(out[j])
    {
      assert Descending(score)(out[i]) <= Descending(score)(out[j]);
    }
    forall k: real
      ensures Run(s, score, k) == Run(out, score, k)
    {
      RunsOfDescending(s, score, k);
      RunsOfDescending(out, score, k);
      assert Run(s, Descending(score), -k) == Run(out, Descending(score), -k);
    }
  }

  // Cheapest first; the caller's slice is left alone.
  method CostOrder(unitCost: Target -> real, candidates: array<Target>) returns (out: array<Target>)
    ensures fresh(out) && out[..] == StableSort(candidates[..], unitCost)
    ensures forall i, j :: 0 <= i < j < out.Length ==> unitCost(out[i]) <= unitCost(out[j])
    ensures SameRuns(candidates[..], out[..], unitCost)
  {
    out := Copy(candidates);
    SliceStable(out, unitCost);
    SortIsStable(candidates[..], unitCost);
    assert forall i :: 0 <= i < out.Length ==> out[i] == out[..][i];
  }

  function Descending<T>(score: T -> real): T -> real { x => -score(x) }

  // Highest score first.
  method LatencyOrder(score: Target -> real, candidates: array<Target>) returns (out: array<Target>)
    ensures fresh(out) && out[..] == StableSort(candidates[..], Descending(score))
    ensures forall i, j :: 0 <= i < j < out.Length ==> score(out[i]) >= score(out[j])
    ensures SameRuns(candidates[..], out[..], score)
  {
    out := Copy(candidates);
    SliceStable(out, Descending(score));
    DescendingIsStable(candidates[..], score);
    assert forall i :: 0 <= i < out.Length ==> out[i] == out[..][i];
  }
}

// Resolution of openrouter/auto: filter the pool, rank it, truncate the chain.
module AutoRouting {
  import opened Wrappers
  import opened Ranking

  datatype PoolEntry = PoolEntry(
    candidate: Candidate, capabilities: set<string>, geosAllowed: set<string>, residency: set<string>)

  datatype Candidate = Candidate(model: string, provider: string, price: real, quality: real, latency: real)

  datatype Hints = Hints(
    needsTools: bool, needsVision: bool, needsStreaming: bool, userGeo: string, dataResidency: seq<string>)

  datatype RoutingConfig = RoutingConfig(
    defaultStrategy: string, fallbackMax: int, pool: seq<PoolEntry>, qualityFloor: real, latencyMax: real)

  function Required(h: Hints): set<string> {
    (if h.needsTools then {"tools"} else {}) + (if h.needsVision then {"vision"} else {})
    + (if h.needsStreaming then {"streaming"} else {})
  }

  predicate AllowedIn(h: Hints, e: PoolEntry) {
    h.userGeo != "" ==> "*" in e.geosAllowed || h.userGeo in e.geosAllowed
  }

  predicate Resides(h: Hints, e: PoolEntry) {
    h.dataResidency != [] ==> exists r :: r in h.dataResidency && r in e.residency
  }

  lemma ResidesIff(h: Hints, e: PoolEntry)
    ensures Resides(h, e) <==> h.dataResidency == [] || (set r | r in h.dataResidency) * e.residency != {}
  {
    var common := (set r | r in h.dataResidency) * e.residency;
    if Resides(h, e) && h.dataResidency != [] {
      var r :| r in h.dataResidency && r in e.residency;
      assert r in common;
    }
    if common != {} {
      var r :| r in common;
    }
  }

  predicate Survives(cfg: RoutingConfig, h: Hints, e: PoolEntry) {
    && Required(h) <= e.capabilities
    && AllowedIn(h, e)
    && Resides(h, e)
    && e.candidate.quality >= cfg.qualityFloor
    && e.candidate.latency <= cfg.latencyMax
  }

  function Surviving(cfg: RoutingConfig, h: Hints): PoolEntry -> bool { (e: PoolEntry) => Survives(cfg, h, e) }

  function Candidates(pool: seq<PoolEntry>): (r: seq<Candidate>)
    ensures |r| == |pool| && forall i :: 0 <= i < |r| ==> r[i] == pool[i].candidate
  {
    seq(|pool|, i requires 0 <= i < |pool| => pool[i].candidate)
  }

  // Every hint and both floors, one by one.
  lemma SurvivesIff(cfg: RoutingConfig, h: Hints, e: PoolEntry)
    ensures Survives(cfg, h, e) <==>
      && (h.needsTools ==> "tools" in e.capabilities)
      && (h.needsVision ==> "vision" in e.capabilities)
      && (h.needsStreaming ==> "streaming" in e.capabilities)
      && (h.userGeo == "" || "*" in e.geosAllowed || h.userGeo in e.geosAllowed)
      && (h.dataResidency == [] || exists r :: r in h.dataResidency && r in e.residency)
      && e.candidate.quality >= cfg.qualityFloor && e.candidate.latency <= cfg.latencyMax
  {
  }

  // What the loop in filter computes.
  function Filtered(cfg: RoutingConfig, h: Hints): seq<Candidate> {
    Candidates(Filter(cfg.pool, Surviving(cfg, h)))
  }

  lemma FilterNext(pool: seq<PoolEntry>, k: nat, p: PoolEntry -> bool)
    requires k < |pool|
    ensures Filter(pool[..k + 1], p) == if p(pool[k]) then Filter(pool[..k], p) + [pool[k]] else Filter(pool[..k], p)
  {
    assert pool[..k + 1] == pool[..k] + [pool[k]];
    FilterSnoc(pool[..k], pool[k], p);
  }

  lemma FilteredMeetsFloors(cfg: RoutingConfig, h: Hints, c: Candidate)
    requires c in Filtered(cfg, h)
    ensures c.quality >= cfg.qualityFloor && c.latency <= cfg.latencyMax
  {
    var survivors := Filter(cfg.pool, Surviving(cfg, h));
    var i :| 0 <= i < |survivors| && Filtered(cfg, h)[i] == c;
    assert survivors[i] in survivors;
    SurvivesIff(cfg, h, survivors[i]);
  }

  method FilterPool(cfg: RoutingConfig, h: Hints) returns (r: seq<Candidate>)
    ensures r == Filtered(cfg, h)
    ensures forall c :: c in r ==> c.quality >= cfg.qualityFloor && c.latency <= cfg.latencyMax
  {
    var required: set<string> := {};
    if h.needsTools { required := required + {"tools"}; }
    if h.needsVision { required := required + {"vision"}; }
    if h.needsStreaming { required := required + {"streaming"}; }
    var survivors: seq<PoolEntry> := [];
    ghost var p := Surviving(cfg, h);
    assert required == Required(h);
    for k := 0 to |cfg.pool|
      invariant survivors == Filter(cfg.pool[..k], p)
    {
      var e := cfg.pool[k];
      FilterNext(cfg.pool, k, p);
      ResidesIff(h, e);
      if !(required <= e.capabilities) { continue; }
      if h.userGeo != "" && "*" !in e.geosAllowed && h.userGeo !in e.geosAllowed { continue; }
      if |h.dataResidency| > 0 && (set r | r in h.dataResidency) * e.residency == {} { continue; }
      if e.candidate.quality < cfg.qualityFloor { continue; }
      if e.candidate.latency > cfg.latencyMax { continue; }
      survivors := survivors + [e];
    }
    assert cfg.pool[..|cfg.pool|] == cfg.pool;
    r := Candidates(survivors);
    forall c | c in r
      ensures c.quality >= cfg.qualityFloor && c.latency <= cfg.latencyMax
    {
      FilteredMeetsFloors(cfg, h, c);
    }
  }

  // The ranking key of a strategy: ascending price, ascending latency, descending quality.
  function StrategyKey(name: string): Option<Candidate -> real> {
    if name == "cost" then Some((c: Candidate) => c.price)
    else if name == "latency" then Some((c: Candidate) => c.latency)
    else if name == "quality" then Some((c: Candidate) => -c.quality)
    else None
  }

  // s[:n] as Python slices it: a negative n counts from the end.
  function SliceTo<T>(s: seq<T>, n: int): seq<T> {
    if n >= |s| then s else if n >= 0 then s[..n] else if |s| + n >= 0 then s[..|s| + n] else []
  }

  // At most the first n elements.
  function First<T>(s: seq<T>, n: nat): seq<T> { if n >= |s| then s else s[..n] }

  datatype Response = Sentinel | Resolved(chain: seq<Candidate>) | UnknownStrategy

  lemma {:induction false} InsertMembers<T>(s: seq<T>, x: T, key: T -> real, y: T)
    requires y in Insert(s, x, key)
    ensures y in s || y == x
    decreases |s|
  {
    if s != [] && key(s[|s| - 1]) > key(x) && y != s[|s| - 1] {
      InsertMembers(s[..|s| - 1], x, key, y);
    }
  }

  lemma {:induction false} SortMembers<T>(s: seq<T>, key: T -> real, y: T)
    requires y in StableSort(s, key)
    ensures y in s
  {
    if s != [] {
      InsertMembers(StableSort(s[..|s| - 1], key), s[|s| - 1], key, y);
      if y != s[|s| - 1] {
        SortMembers(s[..|s| - 1], key, y);
      }
    }
  }

  // Members of the pool, the one of least key first, and none in front of one of less.
  ghost predicate RankedFrom<T>(chain: seq<T>, pool: seq<T>, key: T -> real) {
    && chain != [] && (forall i :: 0 <= i < |chain| ==> chain[i] in pool)
    && (forall i :: 0 <= i < |pool| ==> key(chain[0]) <= key(pool[i]))
    && (forall i, j :: 0 <= i < j < |chain| ==> key(chain[i]) <= key(chain[j]))
  }

  lemma ChainIsRanked<T>(pool: seq<T>, key: T -> real, fallbackMax: int)
    requires pool != []
    ensures
      var ranked := StableSort(pool, key);
      ranked != [] && RankedFrom([ranked[0]] + SliceTo(ranked[1..], fallbackMax), pool, key)
  {
    var ranked := StableSort(pool, key);
    var first := HeadIsFirstLeast(pool, key);
    SortSorted(pool, key);
    var chain := [ranked[0]] + SliceTo(ranked[1..], fallbackMax);
    assert |chain| <= |ranked| && forall i :: 0 <= i < |chain| ==> chain[i] == ranked[i];
    forall i | 0 <= i < |chain|
      ensures chain[i] in pool
    {
      SortMembers(pool, key, ranked[i]);
    }
  }

  // What the three strategies prefer, in the candidates' own fields.
  lemma StrategiesPrefer(chain: seq<Candidate>, pool: seq<Candidate>, name: string)
    requires StrategyKey(name).Some? && RankedFrom(chain, pool, StrategyKey(name).value)
    ensures name == "cost" ==>
      && (forall i :: 0 <= i < |pool| ==> chain[0].price <= pool[i].price)
      && (forall i, j :: 0 <= i < j < |chain| ==> chain[i].price <= chain[j].price)
    ensures name == "latency" ==>
      && (forall i :: 0 <= i < |pool| ==> chain[0].latency <= pool[i].latency)
      && (forall i, j :: 0 <= i < j < |chain| ==> chain[i].latency <= chain[j].latency)
    ensures name == "quality" ==>
      && (forall i :: 0 <= i < |pool| ==> chain[0].quality >= pool[i].quality)
      && (forall i, j :: 0 <= i < j < |chain| ==> chain[i].quality >= chain[j].quality)
  {
    var key := StrategyKey(name).value;
    assert forall i :: 0 <= i < |pool| ==> key(chain[0]) <= key(pool[i]);
    assert forall i, j :: 0 <= i < j < |chain| ==> key(chain[i]) <= key(chain[j]);
  }

  method ResolveModel(cfg: RoutingConfig, h: Hints) returns (r: Response)
    ensures r == Sentinel <==> Filtered(cfg, h) == []
    ensures r == UnknownStrategy <==>
              Filtered(cfg, h) != [] && cfg.defaultStrategy !in {"cost", "latency", "quality"}
    ensures r.Resolved? ==>
      && StrategyKey(cfg.defaultStrategy).Some?
      && var ranked := StableSort(Filtered(cfg, h), StrategyKey(cfg.defaultStrategy).value);
         |ranked| > 0 && r.chain == [ranked[0]] + SliceTo(ranked[1..], cfg.fallbackMax)
    ensures r.Resolved? && cfg.defaultStrategy == "cost" ==>
      var pool := Filtered(cfg, h);
      && (forall i :: 0 <= i < |pool| ==> r.chain[0].price <= pool[i].price)
      && (forall i, j :: 0 <= i < j < |r.chain| ==> r.chain[i].price <= r.chain[j].price)
    ensures r.Resolved? && cfg.defaultStrategy == "latency" ==>
      var pool := Filtered(cfg, h);
      && (forall i :: 0 <= i < |pool| ==> r.chain[0].latency <= pool[i].latency)
      && (forall i, j :: 0 <= i < j < |r.chain| ==> r.chain[i].latency <= r.chain[j].latency)
    ensures r.Resolved? && cfg.defaultStrategy == "quality" ==>
      var pool := Filtered(cfg, h);
      && (forall i :: 0 <= i < |pool| ==> r.chain[0].quality >= pool[i].quality)
      && (forall i, j :: 0 <= i < j < |r.chain| ==> r.chain[i].quality >= r.chain[j].quality)
  {
    var candidates := FilterPool(cfg, h);
    if |candidates| == 0 { return Sentinel; }
    var key := StrategyKey(cfg.defaultStrategy);
    if key.None? { return UnknownStrategy; }
    var ranked := StableSort(candidates, key.value);
    ChainIsRanked(candidates, key.value, cfg.fallbackMax);
    r := Resolved([ranked[0]] + SliceTo(ranked[1..], cfg.fallbackMax));
    StrategiesPrefer(r.chain, candidates, cfg.defaultStrategy);
  }

  // A negative n drops that many from the end.
  lemma NegativeSlice<T>(s: seq<T>, n: int)
    requires n < 0
    ensures SliceTo(s, n) <= s && |SliceTo(s, n)| == if |s| + n >= 0 then |s| + n else 0
  {
  }

  // The chain is the first 1 + fallback_max of the ranking exactly when fallback_max is not
  // negative.
  lemma ChainIsPrefixIff<T>(ranked: seq<T>, fallbackMax: int)
    requires ranked != []
    ensures [ranked[0]] + SliceTo(ranked[1..], fallbackMax) ==
            First(ranked, if 1 + fallbackMax >= 0 then 1 + fallbackMax else 0)
            <==> fallbackMax >= 0
  {
    var chain := [ranked[0]] + SliceTo(ranked[1..], fallbackMax);
    assert |chain| >= 1;
    if fallbackMax >= 0 {
      var f := First(ranked, 1 + fallbackMax);
      assert |chain| == |f|;
      assert forall i :: 0 <= i < |f| ==> chain[i] == f[i];
    }
  }

  // --- Filtering the pool before or after ranking it ---

  function OnEntry(key: Candidate -> real): PoolEntry -> real { (e: PoolEntry) => key(e.candidate) }

  lemma CandidatesSnoc(pool: seq<PoolEntry>, e: PoolEntry)
    ensures Candidates(pool + [e]) == Candidates(pool) + [e.candidate]
  {
  }

  lemma {:induction false} InsertCandidates(pool: seq<PoolEntry>, e: PoolEntry, key: Candidate -> real)
    ensures Insert(Candidates(pool), e.candidate, key) == Candidates(Insert(pool, e, OnEntry(key)))
    decreases |pool|
  {
    if pool == [] {
      CandidatesSnoc(pool, e);
      assert Insert(pool, e, OnEntry(key)) == pool + [e];
    } else {
      var init, last := pool[..|pool| - 1], pool[|pool| - 1];
      Split(pool);
      CandidatesSnoc(init, last);
      InsertSnoc(init, last, e, OnEntry(key));
      InsertSnoc(Candidates(init), last.candidate, e.candidate, key);
      if key(last.candidate) <= key(e.candidate) {
        CandidatesSnoc(pool, e);
      } else {
        InsertCandidates(init, e, key);
        CandidatesSnoc(Insert(init, e, OnEntry(key)), last);
      }
    }
  }

  lemma {:induction false} SortCandidates(pool: seq<PoolEntry>, key: Candidate -> real)
    ensures StableSort(Candidates(pool), key) == Candidates(StableSort(pool, OnEntry(key)))
  {
    if pool != [] {
      var init, last := pool[..|pool| - 1], pool[|pool| - 1];
      Split(pool);
      SortCandidates(init, key);
      CandidatesSnoc(init, last);
      SortSnoc(Candidates(init), last.candidate, key);
      InsertCandidates(StableSort(init, OnEntry(key)), last, key);
    }
  }

  // Ranking what survives is keeping what survives of the ranked pool.
  lemma RankingCommutesWithFiltering(cfg: RoutingConfig, h: Hints, key: Candidate -> real)
    ensures StableSort(Filtered(cfg, h), key) ==
            Candidates(Filter(StableSort(cfg.pool, OnEntry(key)), Surviving(cfg, h)))
  {
    SortCandidates(Filter(cfg.pool, Surviving(cfg, h)), key);
    SortFilterCommute(cfg.pool, OnEntry(key), Surviving(cfg, h));
  }

  // --- The primary ---

  // Index i holds the least key, and nothing before it does.
  ghost predicate FirstLeast<T>(s: seq<T>, i: nat, key: T -> real) {
    && i < |s|
    && (forall j :: 0 <= j < |s| ==> key(s[i]) <= key(s[j]))
    && (forall j :: 0 <= j < i ==> key(s[i]) < key(s[j]))
  }

  lemma InsertHead<T>(s: seq<T>, x: T, key: T -> real)
    requires Sorted(s, key)
    ensures |Insert(s, x, key)| > 0
    ensures Insert(s, x, key)[0] == if s == [] || key(x) < key(s[0]) then x else s[0]
    decreases |s|
  {
    if s != [] {
      var init, last := s[..|s| - 1], s[|s| - 1];
      Split(s);
      SortedInit(init, last, key);
      InsertSnoc(init, last, x, key);
      if key(last) > key(x) {
        InsertHead(init, x, key);
      } else {
        assert key(s[0]) <= key(last);
      }
    }
  }

  lemma LeastSnoc<T>(init: seq<T>, x: T, i: nat, key: T -> real)
    requires FirstLeast(init, i, key)
    ensures FirstLeast(init + [x], if key(x) < key(init[i]) then |init| else i, key)
  {
    var s := init + [x];
    assert forall j :: 0 <= j < |init| ==> s[j] == init[j];
    assert s[|init|] == x;
  }

  lemma {:induction false} HeadIsFirstLeast<T>(s: seq<T>, key: T -> real) returns (i: nat)
    requires s != []
    ensures |StableSort(s, key)| > 0 && FirstLeast(s, i, key) && StableSort(s, key)[0] == s[i]
    decreases |s|
  {
    var init, x := s[..|s| - 1], s[|s| - 1];
    SortSorted(init, key);
    InsertHead(StableSort(init, key), x, key);
    if init == [] {
      i := 0;
    } else {
      i := HeadIsFirstLeast(init, key);
      LeastSnoc(init, x, i, key);
      assert s == init + [x];
      if key(x) < key(init[i]) { i := |init|; }
    }
  }

  // The primary is a survivor of least key, and the first such in pool order.
  lemma PrimaryIsOptimal(cfg: RoutingConfig, h: Hints, key: Candidate -> real)
    requires Filtered(cfg, h) != []
    ensures
      var primary := StableSort(Filtered(cfg, h), key);
      |primary| > 0 && exists i: nat :: FirstLeast(Filtered(cfg, h), i, key) && Filtered(cfg, h)[i] == primary[0]
  {
    var i := HeadIsFirstLeast(Filtered(cfg, h), key);
  }

  // `strict` asks for everything that `loose` asks for: more flags, a geo where none was
  // named, a residency where none was asked for or a choice among fewer.
  predicate Stricter(loose: Hints, strict: Hints) {
    && (loose.needsTools ==> strict.needsTools)
    && (loose.needsVision ==> strict.needsVision)
    && (loose.needsStreaming ==> strict.needsStreaming)
    && (loose.userGeo == "" || loose.userGeo == strict.userGeo)
    && (loose.dataResidency == [] ||
        (strict.dataResidency != [] && forall r :: r in strict.dataResidency ==> r in loose.dataResidency))
  }

  lemma StricterSurvives(cfg: RoutingConfig, loose: Hints, strict: Hints, e: PoolEntry)
    requires Stricter(loose, strict) && Survives(cfg, strict, e)
    ensures Survives(cfg, loose, e)
  {
    assert Required(loose) <= Required(strict);
  }

  // Asking for more never gives a better-ranked primary.
  lemma StricterIsNoBetter(cfg: RoutingConfig, loose: Hints, strict: Hints, key: Candidate -> real)
    requires Stricter(loose, strict) && Filtered(cfg, strict) != []
    ensures Filtered(cfg, loose) != []
    ensures |StableSort(Filtered(cfg, loose), key)| > 0 && |StableSort(Filtered(cfg, strict), key)| > 0
    ensures key(StableSort(Filtered(cfg, loose), key)[0]) <= key(StableSort(Filtered(cfg, strict), key)[0])
  {
    var few := Filter(cfg.pool, Surviving(cfg, strict));
    var many := Filter(cfg.pool, Surviving(cfg, loose));
    var i := HeadIsFirstLeast(Filtered(cfg, strict), key);
    var e: PoolEntry := few[i];
    assert e in few;
    StricterSurvives(cfg, loose, strict, e);
    assert e in many;
    var j :| 0 <= j < |many| && many[j] == e;
    assert Filtered(cfg, loose)[j] == e.candidate;
    var k := HeadIsFirstLeast(Filtered(cfg, loose), key);
  }
}
