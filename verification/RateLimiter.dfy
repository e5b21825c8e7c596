// The Redis sliding-window limiter, against the whole history of its admissions.
module RateLimiter {
  import opened Wrappers

  // --- The specification: nothing is ever forgotten ---

  datatype Admission = Admission(at: nat, member: string)

  // Among the first n admissions, those with lo < at <= hi.
  function CountUpTo(h: seq<Admission>, n: nat, lo: int, hi: int): (c: nat)
    requires n <= |h|
    ensures c <= n
  {
    if n == 0 then 0 else CountUpTo(h, n - 1, lo, hi) + if lo < h[n - 1].at <= hi then 1 else 0
  }

  function CountIn(h: seq<Admission>, lo: int, hi: int): (c: nat)
    ensures c <= |h|
  {
    CountUpTo(h, |h|, lo, hi)
  }

  // The interval is half-open: its old end is out, its new end is in.
  lemma CountsHalfOpen(h: seq<Admission>, x: Admission, lo: int, hi: int)
    ensures CountIn([], lo, hi) == 0
    ensures CountIn(h + [x], lo, hi) == CountIn(h, lo, hi) + if lo < x.at && x.at <= hi then 1 else 0
  {
    CountPrefix(h, x, |h|, lo, hi);
  }

  datatype Decision = Decision(allowed: bool, remaining: int, resetAt: int)

  // A request at `now` is admitted while fewer than `limit` admissions lie in (now - window, now].
  function Decide(h: seq<Admission>, window: nat, limit: nat, now: nat): Decision {
    var count := CountIn(h, now - window, now);
    if count < limit then Decision(true, limit - count - 1, now + window)
    else Decision(false, 0, now + window)
  }

  // `now` is the clock of the gateway that asks, `server` the clock of Redis.
  datatype Request = Request(now: nat, server: nat, member: string, early: bool)

  datatype Log = Log(history: seq<Admission>, decisions: seq<Decision>)

  function Record(log: Log, window: nat, limit: nat, r: Request): Log {
    var d := Decide(log.history, window, limit, r.now);
    Log(if d.allowed then log.history + [Admission(r.now, r.member)] else log.history, log.decisions + [d])
  }

  function SpecRun(window: nat, limit: nat, requests: seq<Request>): Log {
    if requests == [] then Log([], [])
    else Record(SpecRun(window, limit, requests[..|requests| - 1]), window, limit, requests[|requests| - 1])
  }

  // --- The script ---

  // A sorted set with its expiry time; no key is the empty set.
  datatype Bucket = Bucket(scores: map<string, int>, expires: Option<int>)

  const NO_KEY := Bucket(map[], None)

  // Redis drops a key behind its expiry time; `early` says whether it may already at it.
  function Live(b: Bucket, server: int, early: bool): Bucket {
    if b.expires.Some? && (server > b.expires.value || (early && server == b.expires.value)) then NO_KEY else b
  }

  // ZREMRANGEBYSCORE key 0 max; a set without members is no key.
  function Pruned(b: Bucket, max: int): Bucket {
    var scores := WithoutRange(b.scores, max);
    if scores == map[] then NO_KEY else b.(scores := scores)
  }

  function WithoutRange(scores: map<string, int>, max: int): map<string, int> {
    map m | m in scores && !(0 <= scores[m] <= max) :: scores[m]
  }

  datatype Reply = Reply(bucket: Bucket, decision: Decision)

  function Script(b: Bucket, window: nat, limit: nat, r: Request): Reply {
    Admit(Pruned(Live(b, r.server, r.early), r.now - window), window, limit, r)
  }

  // ZCARD, and ZADD with PEXPIRE when there is room.
  function Admit(b: Bucket, window: nat, limit: nat, r: Request): Reply {
    var count := |b.scores|;
    if count < limit then
      Reply(Bucket(b.scores[r.member := r.now], Some(r.server + window)),
            Decision(true, limit - count - 1, r.now + window))
    else Reply(b, Decision(false, 0, r.now + window))
  }

  datatype Served = Served(bucket: Bucket, decisions: seq<Decision>)

  function Run(window: nat, limit: nat, requests: seq<Request>): Served {
    if requests == [] then Served(NO_KEY, [])
    else
      var s := Run(window, limit, requests[..|requests| - 1]);
      var r := Script(s.bucket, window, limit, requests[|requests| - 1]);
      Served(r.bucket, s.decisions + [r.decision])
  }

  predicate NonDecreasing(requests: seq<Request>) {
    forall i, j :: 0 <= i < j < |requests| ==> requests[i].now <= requests[j].now
  }

  predicate Distinct(requests: seq<Request>) {
    forall i, j :: 0 <= i < j < |requests| ==> requests[i].member != requests[j].member
  }

  // One shared clock that does not step back.
  predicate OneClock(requests: seq<Request>) {
    NonDecreasing(requests) && forall i :: 0 <= i < |requests| ==> requests[i].server == requests[i].now
  }

  // One shared clock, and one member per request.
  predicate Orderly(requests: seq<Request>) { OneClock(requests) && Distinct(requests) }

  // --- The history behind a bucket ---

  predicate Sorted(h: seq<Admission>) {
    forall i, j :: 0 <= i < j < |h| ==> h[i].at <= h[j].at
  }

  predicate DistinctMembers(h: seq<Admission>) {
    forall i, j :: 0 <= i < j < |h| ==> h[i].member != h[j].member
  }

  // The set of the admissions from p on.
  function Suffix(h: seq<Admission>, p: nat): map<string, int>
    decreases |h| - p
  {
    if p >= |h| then map[] else Suffix(h, p + 1)[h[p].member := h[p].at]
  }

  lemma {:induction false} SuffixSkips(h: seq<Admission>, p: nat, m: string)
    requires p <= |h| && forall i :: p <= i < |h| ==> h[i].member != m
    ensures m !in Suffix(h, p)
    decreases |h| - p
  {
    if p < |h| {
      SuffixSkips(h, p + 1, m);
    }
  }

  lemma {:induction false} SuffixCard(h: seq<Admission>, p: nat)
    requires p <= |h| && DistinctMembers(h)
    ensures |Suffix(h, p)| == |h| - p
    decreases |h| - p
  {
    if p < |h| {
      SuffixCard(h, p + 1);
      SuffixSkips(h, p + 1, h[p].member);
      assert Suffix(h, p).Keys == Suffix(h, p + 1).Keys + {h[p].member};
    }
  }

  // Adding a new member to a suffix.
  lemma {:induction false} SuffixAdd(h: seq<Admission>, p: nat, a: Admission)
    requires p <= |h| && forall i :: 0 <= i < |h| ==> h[i].member != a.member
    ensures Suffix(h + [a], p) == Suffix(h, p)[a.member := a.at]
    decreases |h| - p
  {
    if p < |h| {
      SuffixAdd(h, p + 1, a);
      assert (h + [a])[p] == h[p];
    } else {
      assert (h + [a])[p] == a && Suffix(h + [a], p + 1) == map[];
    }
  }

  lemma {:induction false} SuffixUntouched(h: seq<Admission>, p: nat, max: int)
    requires p <= |h| && forall i :: p <= i < |h| ==> h[i].at > max
    ensures WithoutRange(Suffix(h, p), max) == Suffix(h, p)
    decreases |h| - p
  {
    if p < |h| {
      SuffixUntouched(h, p + 1, max);
      RangeSkips(Suffix(h, p + 1), max, h[p].member, h[p].at);
    }
  }

  lemma RangeSkips(scores: map<string, int>, max: int, m: string, v: int)
    requires WithoutRange(scores, max) == scores && v > max
    ensures WithoutRange(scores[m := v], max) == scores[m := v]
  {
    forall k | k in scores
      ensures k in WithoutRange(scores, max)
    {
    }
  }

  lemma RangeDrops(scores: map<string, int>, max: int, m: string, v: int)
    requires m !in scores && 0 <= v <= max
    ensures WithoutRange(scores[m := v], max) == WithoutRange(scores, max)
  {
  }

  // Pruning a suffix leaves the suffix of what is younger.
  lemma {:induction false} SuffixPruned(h: seq<Admission>, p: nat, max: int)
    requires Sorted(h) && DistinctMembers(h) && p <= Older(h, max)
    ensures WithoutRange(Suffix(h, p), max) == Suffix(h, Older(h, max))
    decreases |h| - p
  {
    var q := Older(h, max);
    if p == q {
      SuffixUntouched(h, p, max);
    } else {
      SuffixPruned(h, p + 1, max);
      SuffixSkips(h, p + 1, h[p].member);
      RangeDrops(Suffix(h, p + 1), max, h[p].member, h[p].at);
    }
  }

  // The bucket holds a suffix of the history, and what it dropped is out of every window.
  ghost predicate Represents(b: Bucket, h: seq<Admission>, window: nat, clock: nat, p: nat) {
    && p <= |h| && Sorted(h) && DistinctMembers(h)
    && (forall i :: 0 <= i < |h| ==> h[i].at <= clock)
    && b.scores == Suffix(h, p)
    && (forall i :: 0 <= i < p ==> h[i].at <= clock - window)
    && (if p < |h| then b.expires == Some(h[|h| - 1].at + window) else b == NO_KEY)
  }

  function OlderUpTo(h: seq<Admission>, n: nat, max: int): (p: nat)
    requires n <= |h| && Sorted(h)
    ensures p <= n
    ensures forall i :: 0 <= i < p ==> h[i].at <= max
    ensures forall i :: p <= i < n ==> h[i].at > max
    ensures p < n ==> h[p].at > max
  {
    if n == 0 || h[n - 1].at <= max then n else OlderUpTo(h, n - 1, max)
  }

  // The number of admissions that are no later than `max`.
  function Older(h: seq<Admission>, max: int): (p: nat)
    requires Sorted(h)
    ensures p <= |h|
    ensures forall i :: 0 <= i < p ==> h[i].at <= max
    ensures forall i :: p <= i < |h| ==> h[i].at > max
    ensures p < |h| ==> h[p].at > max
  {
    OlderUpTo(h, |h|, max)
  }

  lemma {:induction false} CountIsSuffix(h: seq<Admission>, n: nat, lo: int, hi: int)
    requires n <= |h| && Sorted(h) && forall i :: 0 <= i < |h| ==> h[i].at <= hi
    ensures CountUpTo(h, n, lo, hi) == n - OlderUpTo(h, n, lo)
  {
    if n > 0 {
      CountIsSuffix(h, n - 1, lo, hi);
    }
  }

  // Redis drops the key only when every member is out of the window.
  lemma ExpiryIsUnseen(b: Bucket, h: seq<Admission>, window: nat, clock: nat, p: nat, r: Request)
    requires Represents(b, h, window, clock, p) && clock <= r.now == r.server
    ensures var live := Live(b, r.server, r.early);
            live == b || (live == NO_KEY && Older(h, r.now - window) == |h|)
  {
    var q := Older(h, r.now - window);
    assert q < |h| ==> h[q].at <= h[|h| - 1].at;
  }

  lemma SurvivorsRepresent(b: Bucket, h: seq<Admission>, window: nat, clock: nat, p: nat, now: nat)
    requires Represents(b, h, window, clock, p) && clock <= now
    ensures Represents(Pruned(b, now - window), h, window, now, Older(h, now - window))
  {
    var q := Older(h, now - window);
    assert p <= q by {
      assert q < |h| ==> h[q].at > now - window;
    }
    SuffixPruned(h, p, now - window);
    SuffixCard(h, q);
  }

  lemma ExpiredRepresents(b: Bucket, h: seq<Admission>, window: nat, clock: nat, p: nat, now: nat)
    requires Represents(b, h, window, clock, p) && clock <= now && Older(h, now - window) == |h|
    ensures Represents(Pruned(NO_KEY, now - window), h, window, now, |h|)
  {
    assert Pruned(NO_KEY, now - window) == NO_KEY;
  }

  // `live` is what expiry leaves of the bucket.
  lemma WindowRepresents(b: Bucket, live: Bucket, h: seq<Admission>, window: nat, clock: nat, p: nat, now: nat)
    requires Represents(b, h, window, clock, p) && clock <= now
    requires live == b || (live == NO_KEY && Older(h, now - window) == |h|)
    ensures Represents(Pruned(live, now - window), h, window, now, Older(h, now - window))
  {
    if live == b {
      SurvivorsRepresent(b, h, window, clock, p, now);
    } else {
      ExpiredRepresents(b, h, window, clock, p, now);
    }
  }

  lemma RepresentedCard(b: Bucket, h: seq<Admission>, window: nat, clock: nat, p: nat)
    requires Represents(b, h, window, clock, p)
    ensures |b.scores| == |h| - p
  {
    SuffixCard(h, p);
  }

  lemma RepresentedWindow(b: Bucket, h: seq<Admission>, window: nat, now: nat)
    requires Sorted(h) && Represents(b, h, window, now, Older(h, now - window))
    ensures |b.scores| == |h| - Older(h, now - window) == CountIn(h, now - window, now)
  {
    RepresentedCard(b, h, window, now, Older(h, now - window));
    CountIsSuffix(h, |h|, now - window, now);
  }

  lemma LiveIsTheWindow(b: Bucket, live: Bucket, h: seq<Admission>, window: nat, clock: nat, p: nat, now: nat)
    requires Represents(b, h, window, clock, p) && clock <= now
    requires live == b || (live == NO_KEY && Older(h, now - window) == |h|)
    ensures
      var q, b1 := Older(h, now - window), Pruned(live, now - window);
      Represents(b1, h, window, now, q) && |b1.scores| == |h| - q == CountIn(h, now - window, now)
  {
    WindowRepresents(b, live, h, window, clock, p, now);
    RepresentedWindow(Pruned(live, now - window), h, window, now);
  }

  // Expiry and pruning leave exactly the admissions of the window.
  lemma PruningIsTheWindow(b: Bucket, h: seq<Admission>, window: nat, clock: nat, p: nat, r: Request)
    requires Represents(b, h, window, clock, p) && clock <= r.now == r.server
    ensures
      var q := Older(h, r.now - window);
      var b1 := Pruned(Live(b, r.server, r.early), r.now - window);
      Represents(b1, h, window, r.now, q) && |b1.scores| == |h| - q == CountIn(h, r.now - window, r.now)
  {
    ExpiryIsUnseen(b, h, window, clock, p, r);
    LiveIsTheWindow(b, Live(b, r.server, r.early), h, window, clock, p, r.now);
  }

  lemma ScriptParts(b: Bucket, window: nat, limit: nat, r: Request)
    ensures Script(b, window, limit, r) ==
            Admit(Pruned(Live(b, r.server, r.early), r.now - window), window, limit, r)
  {
  }

  // Decision and bucket of one script run, against the history.
  lemma ScriptRefines(b: Bucket, h: seq<Admission>, window: nat, limit: nat, clock: nat, p: nat, r: Request)
    requires Represents(b, h, window, clock, p) && clock <= r.now == r.server
    requires forall i :: 0 <= i < |h| ==> h[i].member != r.member
    ensures
      var reply := Script(b, window, limit, r);
      reply.decision == Decide(h, window, limit, r.now) &&
      Represents(reply.bucket, if reply.decision.allowed then h + [Admission(r.now, r.member)] else h,
                 window, r.now, Older(h, r.now - window))
  {
    ScriptParts(b, window, limit, r);
    PruningIsTheWindow(b, h, window, clock, p, r);
    var b1 := Pruned(Live(b, r.server, r.early), r.now - window);
    AdmitRefines(b1, h, window, limit, Older(h, r.now - window), r);
  }

  lemma AdmitRefines(b: Bucket, h: seq<Admission>, window: nat, limit: nat, q: nat, r: Request)
    requires r.server == r.now && Represents(b, h, window, r.now, q) && |b.scores| == CountIn(h, r.now - window, r.now)
    requires forall i :: 0 <= i < |h| ==> h[i].member != r.member
    ensures
      var reply := Admit(b, window, limit, r);
      reply.decision == Decide(h, window, limit, r.now) &&
      Represents(reply.bucket, if reply.decision.allowed then h + [Admission(r.now, r.member)] else h, window, r.now, q)
  {
    if |b.scores| < limit { AdmissionRepresented(b, h, window, q, r); }
  }

  lemma AdmissionRepresented(b: Bucket, h: seq<Admission>, window: nat, q: nat, r: Request)
    requires r.server == r.now && Represents(b, h, window, r.now, q)
    requires forall i :: 0 <= i < |h| ==> h[i].member != r.member
    ensures Represents(Bucket(b.scores[r.member := r.now], Some(r.server + window)),
                       h + [Admission(r.now, r.member)], window, r.now, q)
  {
    SuffixAdd(h, q, Admission(r.now, r.member));
  }

  function Clock(requests: seq<Request>): nat {
    if requests == [] then 0 else requests[|requests| - 1].now
  }

  ghost predicate Drawn(requests: seq<Request>, m: string) {
    exists i :: 0 <= i < |requests| && requests[i].member == m
  }

  lemma {:induction false} HistoryIsDrawn(window: nat, limit: nat, requests: seq<Request>)
    ensures forall a :: a in SpecRun(window, limit, requests).history ==> Drawn(requests, a.member)
    decreases |requests|
  {
    if requests != [] {
      var init := requests[..|requests| - 1];
      HistoryIsDrawn(window, limit, init);
      forall a | a in SpecRun(window, limit, requests).history
        ensures Drawn(requests, a.member)
      {
        if a in SpecRun(window, limit, init).history {
          var i :| 0 <= i < |init| && init[i].member == a.member;
          assert requests[i].member == a.member;
        } else {
          assert requests[|requests| - 1].member == a.member;
        }
      }
    }
  }

  lemma OrderlyInit(requests: seq<Request>)
    requires Orderly(requests) && requests != []
    ensures
      var init := requests[..|requests| - 1];
      Orderly(init) && Clock(init) <= requests[|requests| - 1].now && !Drawn(init, requests[|requests| - 1].member)
  {
  }

  // Pruning and key expiry cannot be observed: over any orderly run, every reply is the one
  // that the full admission history gives.
  lemma {:induction false} ScriptIsHistory(window: nat, limit: nat, requests: seq<Request>) returns (p: nat)
    requires Orderly(requests)
    ensures Run(window, limit, requests).decisions == SpecRun(window, limit, requests).decisions
    ensures Represents(Run(window, limit, requests).bucket, SpecRun(window, limit, requests).history,
                       window, Clock(requests), p)
    decreases |requests|
  {
    if requests == [] {
      p := 0;
    } else {
      var init := requests[..|requests| - 1];
      var r := requests[|requests| - 1];
      OrderlyInit(requests);
      var p0 := ScriptIsHistory(window, limit, init);
      var h := SpecRun(window, limit, init).history;
      HistoryIsDrawn(window, limit, init);
      assert forall i :: 0 <= i < |h| ==> h[i] in h;
      ScriptRefines(Run(window, limit, init).bucket, h, window, limit, Clock(init), p0, r);
      p := Older(h, r.now - window);
    }
  }

  // --- What the history promises ---

  lemma {:induction false} CountMonotone(h: seq<Admission>, n: nat, lo: int, hi: int, lo2: int, hi2: int)
    requires n <= |h| && lo2 <= lo && forall i :: 0 <= i < n ==> h[i].at <= hi2
    ensures CountUpTo(h, n, lo, hi) <= CountUpTo(h, n, lo2, hi2)
  {
    if n > 0 { CountMonotone(h, n - 1, lo, hi, lo2, hi2); }
  }

  lemma {:induction false} CountPrefix(h: seq<Admission>, x: Admission, n: nat, lo: int, hi: int)
    requires n <= |h|
    ensures CountUpTo(h + [x], n, lo, hi) == CountUpTo(h, n, lo, hi)
  {
    if n > 0 { CountPrefix(h, x, n - 1, lo, hi); }
  }

  lemma PrefixNonDecreasing(requests: seq<Request>, k: nat)
    requires NonDecreasing(requests) && k <= |requests|
    ensures NonDecreasing(requests[..k])
  {
  }

  // No admission is later than `now`.
  predicate UpTo(h: seq<Admission>, now: int) { forall i :: 0 <= i < |h| ==> h[i].at <= now }

  // An admission keeps the bound at t: the window of the newest admission counted as many before it.
  lemma AdmissionWithinLimit(h: seq<Admission>, window: nat, limit: nat, r: Request, t: int)
    requires UpTo(h, r.now) && Decide(h, window, limit, r.now).allowed && CountIn(h, t - window, t) <= limit
    ensures CountIn(h + [Admission(r.now, r.member)], t - window, t) <= limit
  {
    CountPrefix(h, Admission(r.now, r.member), |h|, t - window, t);
    if r.now <= t {
      CountMonotone(h, |h|, t - window, t, r.now - window, r.now);
    }
  }

  lemma UpToLater(h: seq<Admission>, now: int, later: int)
    requires UpTo(h, now) && now <= later
    ensures UpTo(h, later)
  {
  }

  lemma {:induction false} HistoryWithinLimit(window: nat, limit: nat, requests: seq<Request>, t: int)
    requires NonDecreasing(requests)
    ensures UpTo(SpecRun(window, limit, requests).history, Clock(requests))
    ensures CountIn(SpecRun(window, limit, requests).history, t - window, t) <= limit
    decreases |requests|
  {
    if requests != [] {
      var init := requests[..|requests| - 1];
      var r := requests[|requests| - 1];
      var h := SpecRun(window, limit, init).history;
      HistoryWithinLimit(window, limit, init, t);
      UpToLater(h, Clock(init), r.now);
      if Decide(h, window, limit, r.now).allowed {
        AdmissionWithinLimit(h, window, limit, r, t);
      }
    }
  }

  lemma SameDecisions(window: nat, limit: nat, requests: seq<Request>)
    requires Orderly(requests)
    ensures Run(window, limit, requests).decisions == SpecRun(window, limit, requests).decisions
  {
    var _ := ScriptIsHistory(window, limit, requests);
  }

  // What a run admits.
  function Admitted(window: nat, limit: nat, requests: seq<Request>): seq<Admission> {
    if requests == [] then []
    else
      var init, r := requests[..|requests| - 1], requests[|requests| - 1];
      Admitted(window, limit, init) +
      if Script(Run(window, limit, init).bucket, window, limit, r).decision.allowed then [Admission(r.now, r.member)]
      else []
  }

  lemma {:induction false} AdmittedIsHistory(window: nat, limit: nat, requests: seq<Request>)
    requires Orderly(requests)
    ensures Admitted(window, limit, requests) == SpecRun(window, limit, requests).history
    decreases |requests|
  {
    if requests != [] {
      var init, r := requests[..|requests| - 1], requests[|requests| - 1];
      OrderlyInit(requests);
      AdmittedIsHistory(window, limit, init);
      SameDecisions(window, limit, init);
      SameDecisions(window, limit, requests);
      var d, e := Script(Run(window, limit, init).bucket, window, limit, r).decision,
                  Decide(SpecRun(window, limit, init).history, window, limit, r.now);
      var before := SpecRun(window, limit, init).decisions;
      assert before + [d] == before + [e];
      assert (before + [d])[|before|] == d && (before + [e])[|before|] == e;
    }
  }

  // Safety over every run: whatever the instant t, at most `limit` requests were admitted
  // in (t - window, t].
  lemma AtMostLimitPerWindow(window: nat, limit: nat, requests: seq<Request>, t: int)
    requires Orderly(requests)
    ensures Run(window, limit, requests).decisions == SpecRun(window, limit, requests).decisions
    ensures CountIn(SpecRun(window, limit, requests).history, t - window, t) <= limit
    ensures CountIn(Admitted(window, limit, requests), t - window, t) <= limit
  {
    SameDecisions(window, limit, requests);
    AdmittedIsHistory(window, limit, requests);
    HistoryWithinLimit(window, limit, requests, t);
  }

  lemma {:induction false} DecisionAt(window: nat, limit: nat, requests: seq<Request>, k: nat)
    requires k < |requests|
    ensures |SpecRun(window, limit, requests).decisions| == |requests|
    ensures SpecRun(window, limit, requests).decisions[k] ==
            Decide(SpecRun(window, limit, requests[..k]).history, window, limit, requests[k].now)
    decreases |requests|
  {
    var init := requests[..|requests| - 1];
    if init != [] { DecisionAt(window, limit, init, if k < |init| then k else 0); }
    if k < |init| {
      assert requests[..k] == init[..k];
    } else {
      assert requests[..k] == init;
    }
  }

  // The k-th request of a run is refused exactly when `limit` earlier admissions lie in
  // (now - window, now]; otherwise `Remaining` is what is left of the limit.
  lemma RefusedExactlyWhenFull(window: nat, limit: nat, requests: seq<Request>, k: nat)
    requires Orderly(requests) && k < |requests|
    ensures |Run(window, limit, requests).decisions| == |requests|
    ensures
      var d := Run(window, limit, requests).decisions[k];
      var count := CountIn(SpecRun(window, limit, requests[..k]).history, requests[k].now - window, requests[k].now);
      && (!d.allowed <==> count == limit)
      && (d.allowed ==> 0 <= d.remaining < limit && d.remaining + count + 1 == limit)
      && (!d.allowed ==> d.remaining == 0)
      && d.resetAt == requests[k].now + window
  {
    SameDecisions(window, limit, requests);
    DecisionAt(window, limit, requests, k);
    PrefixNonDecreasing(requests, k);
    HistoryWithinLimit(window, limit, requests[..k], requests[k].now);
  }

  // A refused request leaves the history as it was.
  lemma RefusedStep(window: nat, limit: nat, requests: seq<Request>, k: nat)
    requires k < |requests|
    requires !Decide(SpecRun(window, limit, requests[..k]).history, window, limit, requests[k].now).allowed
    ensures SpecRun(window, limit, requests[..k + 1]).history == SpecRun(window, limit, requests[..k]).history
  {
    var p := requests[..k + 1];
    assert p != [] && p[..|p| - 1] == requests[..k] && p[|p| - 1] == requests[k];
  }

  lemma {:induction false} RefusalsLeaveHistory(window: nat, limit: nat, requests: seq<Request>, i: nat, k: nat)
    requires i < k <= |requests|
    requires |SpecRun(window, limit, requests).decisions| == |requests|
    requires forall j :: i < j < k ==> !SpecRun(window, limit, requests).decisions[j].allowed
    ensures SpecRun(window, limit, requests[..k]).history == SpecRun(window, limit, requests[..i + 1]).history
    decreases k
  {
    if k > i + 1 {
      var m := k - 1;
      RefusalsLeaveHistory(window, limit, requests, i, m);
      DecisionAt(window, limit, requests, m);
      RefusedStep(window, limit, requests, m);
    }
  }

  lemma ResetInHistory(window: nat, limit: nat, requests: seq<Request>, i: nat, k: nat)
    requires NonDecreasing(requests) && i < k < |requests| && limit > 0
    requires requests[k].now >= requests[i].now + window
    requires |SpecRun(window, limit, requests).decisions| == |requests|
    requires forall j :: i < j < k ==> !SpecRun(window, limit, requests).decisions[j].allowed
    ensures SpecRun(window, limit, requests).decisions[k] == Decision(true, limit - 1, requests[k].now + window)
  {
    DecisionAt(window, limit, requests, k);
    RefusalsLeaveHistory(window, limit, requests, i, k);
    PrefixNonDecreasing(requests, i + 1);
    NothingSince(window, limit, requests[..i + 1], requests[k].now);
  }

  // A request at or after an earlier reply's ResetAt, with no admission in between, has the
  // whole limit.
  lemma ResetAtIsHonoured(window: nat, limit: nat, requests: seq<Request>, i: nat, k: nat)
    requires Orderly(requests) && i < k < |requests| && limit > 0
    requires |Run(window, limit, requests).decisions| == |requests|
    requires requests[k].now >= Run(window, limit, requests).decisions[i].resetAt
    requires forall j :: i < j < k ==> !Run(window, limit, requests).decisions[j].allowed
    ensures Run(window, limit, requests).decisions[k] == Decision(true, limit - 1, requests[k].now + window)
  {
    SameDecisions(window, limit, requests);
    DecisionAt(window, limit, requests, i);
    ResetInHistory(window, limit, requests, i, k);
  }

  lemma NothingSince(window: nat, limit: nat, requests: seq<Request>, now: nat)
    requires NonDecreasing(requests)
    requires Clock(requests) <= now - window
    ensures CountIn(SpecRun(window, limit, requests).history, now - window, now) == 0
  {
    HistoryWithinLimit(window, limit, requests, 0);
    var h := SpecRun(window, limit, requests).history;
    NothingCounted(h, |h|, now - window, now);
  }

  lemma {:induction false} NothingCounted(h: seq<Admission>, n: nat, lo: int, hi: int)
    requires n <= |h| && forall i :: 0 <= i < n ==> h[i].at <= lo
    ensures CountUpTo(h, n, lo, hi) == 0
  {
    if n > 0 { NothingCounted(h, n - 1, lo, hi); }
  }

  // --- The limiter ---

  datatype Key = Key(keyId: string, requestsPerMinute: nat)

  datatype Result = Result(allowed: bool, limit: nat, remaining: int, resetAt: int)

  class RedisLimiter {
    var buckets: map<string, Bucket>

    constructor ()
      ensures buckets == map[]
    {
      buckets := map[];
    }

    function BucketOf(key: string): Bucket
      reads this
    {
      if key in buckets then buckets[key] else NO_KEY
    }

    // Evaluates the script on one key, in place.
    method Eval(key: string, window: nat, limit: nat, r: Request) returns (d: Decision)
      modifies this
      ensures var reply := Script(old(BucketOf(key)), window, limit, r);
              d == reply.decision && buckets == old(buckets)[key := reply.bucket]
    {
      var b := Live(BucketOf(key), r.server, r.early);
      b := Pruned(b, r.now - window);
      var count := |b.scores|;
      if count < limit {
        b := Bucket(b.scores[r.member := r.now], Some(r.server + window));
        d := Decision(true, limit - count - 1, r.now + window);
      } else {
        d := Decision(false, 0, r.now + window);
      }
      buckets := buckets[key := b];
    }

    // A key without a policy is not limited and leaves no trace.
    method Check(k: Key, r: Request) returns (res: Result)
      modifies this
      ensures k.requestsPerMinute == 0 ==>
        res == Result(true, 0, 0, r.now + 60000) && buckets == old(buckets)
      ensures k.requestsPerMinute > 0 ==>
        var reply := Script(old(BucketOf("rl:" + k.keyId)), 60000, k.requestsPerMinute, r);
        && buckets == old(buckets)["rl:" + k.keyId := reply.bucket]
        && res == Result(reply.decision.allowed, k.requestsPerMinute, reply.decision.remaining, reply.decision.resetAt)
        && 0 <= res.remaining < k.requestsPerMinute
        && res.resetAt == r.now + 60000
    {
      if k.requestsPerMinute == 0 { return Result(true, 0, 0, r.now + 60000); }
      var d := Eval("rl:" + k.keyId, 60000, k.requestsPerMinute, r);
      res := Result(d.allowed, k.requestsPerMinute, d.remaining, d.resetAt);
    }
  }
}
