// What the limiter's bound rests on: one member per request, and clocks that agree.
module LimiterHypotheses {
  import opened Wrappers
  import opened Text
  import opened RateLimiter

  // --- One member per request: exactly what the bound needs under a steady clock ---

  lemma {:induction false} AllCounted(h: seq<Admission>, n: nat, lo: int, hi: int)
    requires n <= |h| && forall i :: 0 <= i < n ==> lo < h[i].at <= hi
    ensures CountUpTo(h, n, lo, hi) == n
  {
    if n > 0 { AllCounted(h, n - 1, lo, hi); }
  }

  // A script run with room left, on a set that neither expires nor loses a member.
  lemma Admits(b: Bucket, window: nat, limit: nat, r: Request)
    requires Live(b, r.server, r.early) == b && |b.scores| < limit
    requires forall m :: m in b.scores ==> !(0 <= b.scores[m] <= r.now - window)
    requires b.scores == map[] ==> b == NO_KEY
    ensures Script(b, window, limit, r) ==
            Reply(Bucket(b.scores[r.member := r.now], Some(r.server + window)),
                  Decision(true, limit - |b.scores| - 1, r.now + window))
  {
    assert WithoutRange(b.scores, r.now - window) == b.scores;
  }

  lemma RunSnoc(window: nat, limit: nat, requests: seq<Request>, r: Request)
    ensures
      var reply := Script(Run(window, limit, requests).bucket, window, limit, r);
      && Run(window, limit, requests + [r]).bucket == reply.bucket
      && Admitted(window, limit, requests + [r]) ==
           Admitted(window, limit, requests) + if reply.decision.allowed then [Admission(r.now, r.member)] else []
  {
    assert (requests + [r])[..|requests|] == requests;
  }

  function Copies(r: Request, n: nat): seq<Request> {
    if n == 0 then [] else Copies(r, n - 1) + [r]
  }

  // The set after any number of requests with one member.
  function OneMember(r: Request, window: nat): Bucket { Bucket(map[r.member := r.now], Some(r.server + window)) }

  lemma CopyAdmitted(b: Bucket, r: Request, window: nat, limit: nat)
    requires window > 0 && limit >= 2 && (b == NO_KEY || b == OneMember(r, window))
    ensures
      var reply := Script(b, window, limit, r);
      reply.decision.allowed && reply.bucket == OneMember(r, window)
  {
    if b == NO_KEY {
      assert NO_KEY.scores[r.member := r.now] == map[r.member := r.now];
    } else {
      assert b.scores.Keys == {r.member};
      assert b.scores[r.member := r.now] == b.scores;
    }
    Admits(b, window, limit, r);
  }

  // n admissions at one time.
  predicate AllAt(h: seq<Admission>, n: nat, now: int) { |h| == n && forall i :: 0 <= i < n ==> h[i].at == now }

  lemma AllAtSnoc(h: seq<Admission>, n: nat, x: Admission)
    requires AllAt(h, n, x.at)
    ensures AllAt(h + [x], n + 1, x.at)
  {
  }

  lemma AllAtCounted(h: seq<Admission>, n: nat, now: nat, window: nat)
    requires AllAt(h, n, now) && window > 0
    ensures CountIn(h, now - window, now) == n
  {
    AllCounted(h, n, now - window, now);
  }

  // A run of n requests that share r's member and time: all are admitted, the set holds one member.
  ghost predicate Shared(requests: seq<Request>, n: nat, r: Request, window: nat, limit: nat) {
    && Run(window, limit, requests).bucket == (if n == 0 then NO_KEY else OneMember(r, window))
    && AllAt(Admitted(window, limit, requests), n, r.now)
  }

  lemma SharedSnoc(requests: seq<Request>, n: nat, r: Request, window: nat, limit: nat)
    requires window > 0 && limit >= 2 && Shared(requests, n, r, window, limit)
    ensures Shared(requests + [r], n + 1, r, window, limit)
  {
    RunSnoc(window, limit, requests, r);
    CopyAdmitted(Run(window, limit, requests).bucket, r, window, limit);
    AllAtSnoc(Admitted(window, limit, requests), n, Admission(r.now, r.member));
  }

  lemma {:induction false} CopiesShare(r: Request, n: nat, window: nat, limit: nat)
    requires window > 0 && limit >= 2
    ensures Shared(Copies(r, n), n, r, window, limit)
  {
    if n > 0 {
      CopiesShare(r, n - 1, window, limit);
      SharedSnoc(Copies(r, n - 1), n - 1, r, window, limit);
    }
  }

  // Two pods that draw the same nanosecond as member: the set does not grow, and a limit of two or
  // more admits any number n of requests, all of them in one window.
  lemma SharedMemberOverAdmits(r: Request, n: nat, window: nat, limit: nat)
    requires window > 0 && limit >= 2
    ensures CountIn(Admitted(window, limit, Copies(r, n)), r.now - window, r.now) == n
  {
    CopiesShare(r, n, window, limit);
    AllAtCounted(Admitted(window, limit, Copies(r, n)), n, r.now, window);
  }

  ghost predicate WithinAt(window: nat, limit: nat, requests: seq<Request>, length: nat, t: int) {
    CountIn(Admitted(window, limit, requests), t - length, t) <= limit
  }

  lemma NotWithin(window: nat, limit: nat, requests: seq<Request>, h: seq<Admission>, length: nat, t: int)
    requires h == Admitted(window, limit, requests) && CountIn(h, t - length, t) > limit
    ensures !WithinAt(window, limit, requests, length, t)
  {
  }

  // More requests on the same clock, with members of their own.
  ghost predicate Continues(requests: seq<Request>, more: seq<Request>) {
    && OneClock(requests + more) && Distinct(more)
    && forall i, j :: 0 <= i < |requests| && 0 <= j < |more| ==> requests[i].member != more[j].member
  }

  // The bound holds for every window and limit, and however the run goes on.
  ghost predicate Safe(requests: seq<Request>) {
    forall window: nat, limit: nat, more: seq<Request>, t: int ::
      Continues(requests, more) ==> WithinAt(window, limit, requests + more, window, t)
  }

  // Under one steady clock a run is safe exactly when its members are distinct.
  lemma SafeIffDistinct(requests: seq<Request>)
    requires OneClock(requests)
    ensures Safe(requests) <==> Distinct(requests)
  {
    if Distinct(requests) {
      forall window: nat, limit: nat, more: seq<Request>, t: int | Continues(requests, more)
        ensures WithinAt(window, limit, requests + more, window, t)
      {
        DistinctTogether(requests, more);
        AtMostLimitPerWindow(window, limit, requests + more, t);
      }
    } else {
      var i, j :| 0 <= i < j < |requests| && requests[i].member == requests[j].member;
      RepeatIsUnsafe(requests, i, j);
    }
  }

  lemma DistinctTogether(requests: seq<Request>, more: seq<Request>)
    requires Continues(requests, more) && Distinct(requests)
    ensures Orderly(requests + more)
  {
  }

  function Members(requests: seq<Request>): set<string> {
    if requests == [] then {} else Members(requests[..|requests| - 1]) + {requests[|requests| - 1].member}
  }

  lemma {:induction false} MembersOf(requests: seq<Request>, n: nat)
    requires n <= |requests|
    ensures |Members(requests[..n])| <= n
    ensures forall i :: 0 <= i < n ==> requests[i].member in Members(requests[..n])
  {
    if n > 0 {
      MembersOf(requests, n - 1);
      assert requests[..n][..n - 1] == requests[..n - 1];
    }
  }

  lemma RepeatShrinks(requests: seq<Request>, i: nat, j: nat)
    requires i < j < |requests| && requests[i].member == requests[j].member
    ensures |Members(requests[..j + 1])| <= j
  {
    MembersOf(requests, j);
    assert requests[..j + 1][..j] == requests[..j];
    assert Members(requests[..j + 1]) == Members(requests[..j]);
  }

  // A window that reaches back behind every request.
  ghost predicate Wide(requests: seq<Request>, window: nat) {
    OneClock(requests) && forall i :: 0 <= i < |requests| ==> requests[i].now < window
  }

  // The set holds the members drawn so far, and outlives every request.
  ghost predicate HoldsMembers(b: Bucket, members: set<string>, window: nat) {
    && b.scores.Keys == members
    && (forall m :: m in b.scores ==> b.scores[m] >= 0)
    && (if members == {} then b == NO_KEY else b.expires.Some? && b.expires.value >= window)
  }

  lemma WideStep(b: Bucket, members: set<string>, window: nat, limit: nat, r: Request)
    requires HoldsMembers(b, members, window) && |members| < limit && r.now == r.server < window
    ensures
      var reply := Script(b, window, limit, r);
      reply.decision.allowed && HoldsMembers(reply.bucket, members + {r.member}, window)
  {
    assert |b.scores| == |b.scores.Keys|;
    assert b.scores == map[] <==> members == {};
    Admits(b, window, limit, r);
  }

  ghost predicate FewMembers(all: seq<Request>, n: nat, limit: nat)
    requires n <= |all|
  {
    forall k :: 0 <= k < n ==> |Members(all[..k])| < limit
  }

  // While the members fit, everything is admitted and the set holds the members.
  lemma {:induction false} WideRun(requests: seq<Request>, window: nat, limit: nat, n: nat)
    requires Wide(requests, window) && n <= |requests|
    requires FewMembers(requests, n, limit)
    ensures HoldsMembers(Run(window, limit, requests[..n]).bucket, Members(requests[..n]), window)
    ensures |Admitted(window, limit, requests[..n])| == n
  {
    if n > 0 {
      var init, r := requests[..n - 1], requests[n - 1];
      WideRun(requests, window, limit, n - 1);
      WideStep(Run(window, limit, init).bucket, Members(init), window, limit, r);
      SplitAt(requests, n - 1);
      RunSnoc(window, limit, init, r);
      MembersSnoc(init, r);
    }
  }

  lemma MembersSnoc(requests: seq<Request>, r: Request)
    ensures Members(requests + [r]) == Members(requests) + {r.member}
  {
    assert (requests + [r])[..|requests|] == requests;
  }

  lemma {:induction false} AdmittedGrows(window: nat, limit: nat, requests: seq<Request>, n: nat)
    requires n <= |requests|
    ensures |Admitted(window, limit, requests[..n])| <= |Admitted(window, limit, requests)|
    decreases |requests|
  {
    if n < |requests| {
      var init := requests[..|requests| - 1];
      AdmittedGrows(window, limit, init, n);
      assert init[..n] == requests[..n];
    } else {
      assert requests[..n] == requests;
    }
  }

  predicate AllBy(h: seq<Admission>, now: int) { forall i :: 0 <= i < |h| ==> h[i].at <= now }

  lemma AllByCounted(h: seq<Admission>, now: nat, length: nat)
    requires AllBy(h, now) && length > now
    ensures CountIn(h, now - length, now) == |h|
  {
    AllCounted(h, |h|, now - length, now);
  }

  lemma {:induction false} AdmittedInTime(window: nat, limit: nat, requests: seq<Request>)
    requires NonDecreasing(requests)
    ensures AllBy(Admitted(window, limit, requests), Clock(requests))
    decreases |requests|
  {
    if requests != [] {
      AdmittedInTime(window, limit, requests[..|requests| - 1]);
    }
  }

  // A member that no request has drawn.
  lemma {:induction false} FreshMember(requests: seq<Request>) returns (m: string)
    ensures forall i :: 0 <= i < |requests| ==> |requests[i].member| < |m|
    decreases |requests|
  {
    if requests == [] {
      m := "";
    } else {
      var x := FreshMember(requests[..|requests| - 1]);
      m := x + requests[|requests| - 1].member + "+";
    }
  }

  lemma MembersStayFew(all: seq<Request>, i: nat, j: nat, k: nat)
    requires i < j < |all| && all[i].member == all[j].member && k < j + 2
    ensures |Members(all[..k])| < j + 1
  {
    MembersOf(all, k);
    if k == j + 1 { RepeatShrinks(all, i, j); }
  }

  // What a limit with room for the members of the first n requests admits.
  lemma WideAdmits(all: seq<Request>, window: nat, limit: nat, n: nat)
    requires Wide(all, window) && n <= |all|
    requires FewMembers(all, n, limit)
    ensures |Admitted(window, limit, all)| >= n
  {
    WideRun(all, window, limit, n);
    AdmittedGrows(window, limit, all, n);
  }

  lemma AllInWindow(all: seq<Request>, window: nat, limit: nat, h: seq<Admission>)
    requires NonDecreasing(all) && window > Clock(all) && h == Admitted(window, limit, all)
    ensures CountIn(h, Clock(all) - window, Clock(all)) == |h|
  {
    AdmittedInTime(window, limit, all);
    AllByCounted(h, Clock(all), window);
  }

  lemma WideWindow(all: seq<Request>, window: nat)
    requires OneClock(all) && window > Clock(all)
    ensures Wide(all, window)
  {
  }

  lemma RepeatKeepsFew(all: seq<Request>, i: nat, j: nat, limit: nat)
    requires i < j < |all| - 1 && all[i].member == all[j].member && limit == j + 1
    ensures FewMembers(all, limit + 1, limit)
  {
    forall k | 0 <= k < limit + 1
      ensures |Members(all[..k])| < limit
    {
      MembersStayFew(all, i, j, k);
    }
  }

  lemma OverAdmits(all: seq<Request>, window: nat, limit: nat)
    requires NonDecreasing(all) && window > Clock(all) && |Admitted(window, limit, all)| > limit
    ensures !WithinAt(window, limit, all, window, Clock(all))
  {
    var h := Admitted(window, limit, all);
    AllInWindow(all, window, limit, h);
    NotWithin(window, limit, all, h, window, Clock(all));
  }

  // After a repeat at index j, a limit of j + 1 with a wide window admits j + 2 requests.
  lemma RepeatOverAdmits(all: seq<Request>, i: nat, j: nat, window: nat, limit: nat)
    requires OneClock(all) && i < j < |all| - 1 && all[i].member == all[j].member
    requires window > Clock(all) && limit == j + 1
    ensures !WithinAt(window, limit, all, window, Clock(all))
  {
    WideWindow(all, window);
    RepeatKeepsFew(all, i, j, limit);
    WideAdmits(all, window, limit, limit + 1);
    OverAdmits(all, window, limit);
  }

  lemma OneMoreContinues(requests: seq<Request>, m: string)
    requires OneClock(requests) && requests != [] && forall i :: 0 <= i < |requests| ==> |requests[i].member| < |m|
    ensures
      var more := [Request(Clock(requests), Clock(requests), m, false)];
      Continues(requests, more) && Clock(requests + more) == Clock(requests)
  {
  }

  lemma RepeatIsUnsafe(requests: seq<Request>, i: nat, j: nat)
    requires OneClock(requests) && i < j < |requests| && requests[i].member == requests[j].member
    ensures !Safe(requests)
  {
    var m := FreshMember(requests);
    var more := [Request(Clock(requests), Clock(requests), m, false)];
    OneMoreContinues(requests, m);
    RepeatOverAdmits(requests + more, i, j, Clock(requests) + 1, j + 1);
  }

  // --- Clocks that differ: exactly how much of the window is left ---

  // How far a gateway's clock may be behind the server's, and how far ahead of it.
  datatype Clocks = Clocks(lag: nat, lead: nat)

  function Spread(c: Clocks): nat { c.lag + c.lead }

  predicate Reads(r: Request, c: Clocks) { r.server - c.lag <= r.now <= r.server + c.lead }

  // The server's clock does not step back, and each gateway's stays within its bounds.
  predicate Skewed(requests: seq<Request>, c: Clocks) {
    && (forall i, j :: 0 <= i < j < |requests| ==> requests[i].server <= requests[j].server)
    && (forall i :: 0 <= i < |requests| ==> Reads(requests[i], c))
  }

  function ServerClock(requests: seq<Request>): nat {
    if requests == [] then 0 else requests[|requests| - 1].server
  }

  predicate InSet(b: Bucket, a: Admission) { a.member in b.scores && b.scores[a.member] == a.at }

  // An admission is in the set, and the key outlives its window but for the lead; or it is a window
  // behind the server's clock but for the lead.
  predicate Placed(b: Bucket, a: Admission, window: nat, lead: nat, server: int) {
    && a.at <= server + lead
    && ((InSet(b, a) && b.expires.Some? && a.at + window <= b.expires.value + lead) || a.at + window <= server + lead)
  }

  ghost predicate Keeps(b: Bucket, h: seq<Admission>, window: nat, lead: nat, server: int) {
    DistinctMembers(h) && forall i :: 0 <= i < |h| ==> Placed(b, h[i], window, lead, server)
  }

  lemma ExpiryPlaces(b: Bucket, a: Admission, window: nat, lead: nat, server: int, r: Request)
    requires Placed(b, a, window, lead, server) && server <= r.server
    ensures Placed(Live(b, r.server, r.early), a, window, lead, r.server)
  {
  }

  lemma PruningPlaces(b: Bucket, a: Admission, window: nat, lead: nat, r: Request)
    requires Placed(b, a, window, lead, r.server) && r.now <= r.server + lead
    ensures Placed(Pruned(b, r.now - window), a, window, lead, r.server)
  {
    if InSet(b, a) && !(0 <= a.at <= r.now - window) {
      assert a.member in WithoutRange(b.scores, r.now - window);
    }
  }

  lemma PruningKeeps(b: Bucket, h: seq<Admission>, window: nat, lead: nat, server: int, r: Request)
    requires Keeps(b, h, window, lead, server) && server <= r.server && r.now <= r.server + lead
    ensures Keeps(Pruned(Live(b, r.server, r.early), r.now - window), h, window, lead, r.server)
  {
    forall i | 0 <= i < |h|
      ensures Placed(Pruned(Live(b, r.server, r.early), r.now - window), h[i], window, lead, r.server)
    {
      ExpiryPlaces(b, h[i], window, lead, server, r);
      PruningPlaces(Live(b, r.server, r.early), h[i], window, lead, r);
    }
  }

  // The bucket behind an admission.
  function Extended(b: Bucket, window: nat, r: Request): Bucket {
    Bucket(b.scores[r.member := r.now], Some(r.server + window))
  }

  lemma AdmissionPlaces(b: Bucket, a: Admission, window: nat, lead: nat, r: Request)
    requires Placed(b, a, window, lead, r.server) && a.member != r.member
    ensures Placed(Extended(b, window, r), a, window, lead, r.server)
  {
    if InSet(b, a) {
      assert Extended(b, window, r).scores[a.member] == b.scores[a.member];
    }
  }

  lemma AdmissionKeeps(b: Bucket, h: seq<Admission>, window: nat, lead: nat, r: Request)
    requires Keeps(b, h, window, lead, r.server) && r.now <= r.server + lead
    requires forall i :: 0 <= i < |h| ==> h[i].member != r.member
    ensures Keeps(Extended(b, window, r), h + [Admission(r.now, r.member)], window, lead, r.server)
  {
    var h2 := h + [Admission(r.now, r.member)];
    forall i | 0 <= i < |h2|
      ensures Placed(Extended(b, window, r), h2[i], window, lead, r.server)
    {
      if i < |h| {
        assert h2[i] == h[i];
        AdmissionPlaces(b, h[i], window, lead, r);
      }
    }
  }

  // Admissions with distinct members that are all among the keys are no more than the keys.
  lemma {:induction false} CountFits(h: seq<Admission>, n: nat, lo: int, hi: int, keys: set<string>)
    requires n <= |h| && DistinctMembers(h)
    requires forall i :: 0 <= i < n && lo < h[i].at <= hi ==> h[i].member in keys
    ensures CountUpTo(h, n, lo, hi) <= |keys|
  {
    if n > 0 {
      if lo < h[n - 1].at <= hi {
        CountFits(h, n - 1, lo, hi, keys - {h[n - 1].member});
        assert keys == (keys - {h[n - 1].member}) + {h[n - 1].member};
      } else {
        CountFits(h, n - 1, lo, hi, keys);
      }
    }
  }

  // An interval that the clocks cannot step over holds what the set holds, at most.
  lemma IntervalInSet(b: Bucket, h: seq<Admission>, window: nat, c: Clocks, length: nat, r: Request, t: int)
    requires Keeps(b, h, window, c.lead, r.server) && Reads(r, c) && length + Spread(c) <= window
    requires t - length < r.now <= t
    ensures CountIn(h, t - length, t) <= |b.scores|
  {
    forall i | 0 <= i < |h| && t - length < h[i].at <= t
      ensures h[i].member in b.scores.Keys
    {
      assert Placed(b, h[i], window, c.lead, r.server);
    }
    CountFits(h, |h|, t - length, t, b.scores.Keys);
  }

  lemma {:induction false} AdmittedIsDrawn(window: nat, limit: nat, requests: seq<Request>)
    ensures forall a :: a in Admitted(window, limit, requests) ==> Drawn(requests, a.member)
    decreases |requests|
  {
    if requests != [] {
      var init := requests[..|requests| - 1];
      AdmittedIsDrawn(window, limit, init);
      forall a | a in Admitted(window, limit, requests)
        ensures Drawn(requests, a.member)
      {
        if a in Admitted(window, limit, init) {
          var i :| 0 <= i < |init| && init[i].member == a.member;
          assert requests[i].member == a.member;
        } else {
          assert requests[|requests| - 1].member == a.member;
        }
      }
    }
  }

  lemma SkewedInit(requests: seq<Request>, c: Clocks)
    requires Skewed(requests, c) && Distinct(requests) && requests != []
    ensures
      var init, r := requests[..|requests| - 1], requests[|requests| - 1];
      && Skewed(init, c) && Distinct(init) && ServerClock(init) <= r.server && Reads(r, c)
      && !Drawn(init, r.member)
  {
  }

  // An admission keeps the bound on the interval that ends at t.
  lemma SkewAdmits(b: Bucket, h: seq<Admission>, window: nat, limit: nat, c: Clocks, length: nat, r: Request, t: int)
    requires Keeps(b, h, window, c.lead, r.server) && Reads(r, c) && length + Spread(c) <= window
    requires |b.scores| < limit && CountIn(h, t - length, t) <= limit
    ensures CountIn(h + [Admission(r.now, r.member)], t - length, t) <= limit
  {
    CountPrefix(h, Admission(r.now, r.member), |h|, t - length, t);
    if t - length < r.now <= t {
      IntervalInSet(b, h, window, c, length, r, t);
    }
  }

  predicate Unseen(h: seq<Admission>, m: string) { forall i :: 0 <= i < |h| ==> h[i].member != m }

  // What a run has admitted, and its bucket, after one more request.
  function Next(h: seq<Admission>, reply: Reply, r: Request): seq<Admission> {
    if reply.decision.allowed then h + [Admission(r.now, r.member)] else h
  }

  lemma SkewAdmit(b: Bucket, h: seq<Admission>, window: nat, limit: nat, c: Clocks, length: nat, r: Request, t: int)
    requires Keeps(b, h, window, c.lead, r.server) && Reads(r, c) && length + Spread(c) <= window
    requires Unseen(h, r.member) && CountIn(h, t - length, t) <= limit
    ensures
      var reply := Admit(b, window, limit, r);
      Keeps(reply.bucket, Next(h, reply, r), window, c.lead, r.server)
      && CountIn(Next(h, reply, r), t - length, t) <= limit
  {
    if |b.scores| < limit {
      AdmissionKeeps(b, h, window, c.lead, r);
      SkewAdmits(b, h, window, limit, c, length, r, t);
    }
  }

  // One more request keeps the bound on the interval that ends at t.
  lemma SkewStep(b: Bucket, h: seq<Admission>, window: nat, limit: nat, c: Clocks, length: nat, server: nat,
                 r: Request, t: int)
    requires Keeps(b, h, window, c.lead, server) && server <= r.server && Reads(r, c)
    requires length + Spread(c) <= window && Unseen(h, r.member) && CountIn(h, t - length, t) <= limit
    ensures
      var reply := Script(b, window, limit, r);
      Keeps(reply.bucket, Next(h, reply, r), window, c.lead, r.server)
      && CountIn(Next(h, reply, r), t - length, t) <= limit
  {
    PruningKeeps(b, h, window, c.lead, server, r);
    ScriptParts(b, window, limit, r);
    SkewAdmit(Pruned(Live(b, r.server, r.early), r.now - window), h, window, limit, c, length, r, t);
  }

  lemma AdmittedNext(window: nat, limit: nat, requests: seq<Request>)
    requires requests != []
    ensures
      var init, r := requests[..|requests| - 1], requests[|requests| - 1];
      var reply := Script(Run(window, limit, init).bucket, window, limit, r);
      && Run(window, limit, requests).bucket == reply.bucket
      && Admitted(window, limit, requests) == Next(Admitted(window, limit, init), reply, r)
  {
    AppendEmpty(Admitted(window, limit, requests[..|requests| - 1]));
  }

  lemma AdmittedUnseen(window: nat, limit: nat, requests: seq<Request>, m: string)
    requires !Drawn(requests, m)
    ensures Unseen(Admitted(window, limit, requests), m)
  {
    AdmittedIsDrawn(window, limit, requests);
    var h := Admitted(window, limit, requests);
    assert forall i :: 0 <= i < |h| ==> h[i] in h;
  }

  lemma {:induction false} SkewRun(window: nat, limit: nat, requests: seq<Request>, c: Clocks, length: nat, t: int)
    requires Skewed(requests, c) && Distinct(requests) && length + Spread(c) <= window
    ensures Keeps(Run(window, limit, requests).bucket, Admitted(window, limit, requests), window, c.lead,
                  ServerClock(requests))
    ensures CountIn(Admitted(window, limit, requests), t - length, t) <= limit
    decreases |requests|
  {
    if requests != [] {
      var init, r := requests[..|requests| - 1], requests[|requests| - 1];
      SkewedInit(requests, c);
      SkewRun(window, limit, init, c, length, t);
      AdmittedUnseen(window, limit, init, r.member);
      AdmittedNext(window, limit, requests);
      SkewStep(Run(window, limit, init).bucket, Admitted(window, limit, init), window, limit, c, length,
               ServerClock(init), r, t);
    }
  }

  lemma FirstOne(window: nat, a: Request)
    requires a == Request(0, 0, "a", false)
    ensures Run(window, 2, [a]).bucket == Bucket(map["a" := 0], Some(window))
    ensures Admitted(window, 2, [a]) == [Admission(0, "a")]
  {
    RunSnoc(window, 2, [], a);
    assert [] + [a] == [a];
    Admits(NO_KEY, window, 2, a);
    assert NO_KEY.scores["a" := 0] == map["a" := 0];
  }

  lemma AdmitsSecond(window: nat, b: Request)
    requires b == Request(0, 0, "b", false) && window > 0
    ensures
      var reply := Script(Bucket(map["a" := 0], Some(window)), window, 2, b);
      reply.decision.allowed && reply.bucket == Bucket(map["a" := 0, "b" := 0], Some(window))
  {
    var b1 := Bucket(map["a" := 0], Some(window));
    assert b1.scores.Keys == {"a"};
    Admits(b1, window, 2, b);
    assert b1.scores["b" := 0] == map["a" := 0, "b" := 0];
  }

  lemma FirstTwo(window: nat, a: Request, b: Request)
    requires a == Request(0, 0, "a", false) && b == Request(0, 0, "b", false) && window > 0
    ensures Run(window, 2, [a, b]).bucket == Bucket(map["a" := 0, "b" := 0], Some(window))
    ensures Admitted(window, 2, [a, b]) == [Admission(0, "a"), Admission(0, "b")]
  {
    FirstOne(window, a);
    RunSnoc(window, 2, [a], b);
    assert [a] + [b] == [a, b];
    AdmitsSecond(window, b);
  }

  // The set behind the third request.
  function OnlyC(window: nat, server: nat): Bucket { Bucket(map["c" := window], Some(server + window)) }

  lemma DropsBoth(window: nat, server: nat, r: Request)
    requires server <= window && r == Request(window, server, "c", false)
    ensures
      var reply := Script(Bucket(map["a" := 0, "b" := 0], Some(window)), window, 2, r);
      reply.decision.allowed && reply.bucket == OnlyC(window, server)
  {
    assert WithoutRange(map["a" := 0, "b" := 0], 0) == map[];
    var none: map<string, int> := map[];
    assert none["c" := window] == map["c" := window];
  }

  lemma FirstThree(window: nat, server: nat, a: Request, b: Request, c: Request) returns (three: seq<Request>)
    requires 0 < window && server <= window
    requires a == Request(0, 0, "a", false) && b == Request(0, 0, "b", false)
    requires c == Request(window, server, "c", false)
    ensures |three| == 3 && three[0] == a && three[1] == b && three[2] == c
    ensures Run(window, 2, three).bucket == OnlyC(window, server)
    ensures Admitted(window, 2, three) == [Admission(0, "a"), Admission(0, "b"), Admission(window, "c")]
  {
    FirstTwo(window, a, b);
    DropsBoth(window, server, c);
    RunSnoc(window, 2, [a, b], c);
    three := [a, b] + [c];
  }

  lemma LetsIn(window: nat, d: Request)
    requires window > 0 && d.member == "d" && d.now <= d.server <= window && !d.early
    ensures Script(OnlyC(window, d.server), window, 2, d).decision.allowed
  {
    var b := OnlyC(window, d.server);
    assert b.scores.Keys == {"c"};
    Admits(b, window, 2, d);
  }

  lemma LastOne(window: nat, three: seq<Request>, d: Request)
    requires window > 0 && d.member == "d" && d.now <= d.server <= window && !d.early
    requires Run(window, 2, three).bucket == OnlyC(window, d.server)
    ensures Admitted(window, 2, three + [d]) == Admitted(window, 2, three) + [Admission(d.now, "d")]
  {
    LetsIn(window, d);
    RunSnoc(window, 2, three, d);
  }

  lemma LastCounted(window: nat, h: seq<Admission>, d: Admission, length: nat, t: int)
    requires h == [Admission(0, "a"), Admission(0, "b"), Admission(window, "c")] + [d]
    requires t == d.at < length
    ensures CountIn(h, t - length, t) > 2
  {
    FourCounted(Admission(0, "a"), Admission(0, "b"), Admission(window, "c"), d, length, t);
  }

  lemma LastOverAdmits(window: nat, three: seq<Request>, d: Request, length: nat, t: int)
    requires window > 0 && d.member == "d" && d.now <= d.server <= window && !d.early
    requires t == d.now && length > t
    requires Run(window, 2, three).bucket == OnlyC(window, d.server)
    requires Admitted(window, 2, three) == [Admission(0, "a"), Admission(0, "b"), Admission(window, "c")]
    ensures !WithinAt(window, 2, three + [d], length, t)
  {
    LastOne(window, three, d);
    var h := Admitted(window, 2, three + [d]);
    LastCounted(window, h, Admission(d.now, "d"), length, t);
    NotWithin(window, 2, three + [d], h, length, t);
  }

  lemma FourMembers(requests: seq<Request>)
    requires |requests| == 4 && requests[0].member == "a" && requests[1].member == "b"
    requires requests[2].member == "c" && requests[3].member == "d"
    ensures Distinct(requests)
  {
    assert "a" != "b" && "a" != "c" && "a" != "d" && "b" != "c" && "b" != "d" && "c" != "d";
  }

  lemma FourClocks(requests: seq<Request>, window: nat, c: Clocks)
    requires Spread(c) <= window && |requests| == 4
    requires requests[0].now == requests[0].server == requests[1].now == requests[1].server == 0
    requires requests[2].server == requests[3].server == window - c.lead
    requires requests[2].now == window && requests[3].now == window - Spread(c)
    ensures Skewed(requests, c)
  {
  }

  // Clocks that differ let three requests into an interval longer than the window less their spread,
  // under a limit of two: two at the start, one whose clock is ahead and drops them from the set,
  // and one whose clock is behind.
  lemma SkewedClockOverAdmits(window: nat, c: Clocks, length: nat) returns (requests: seq<Request>)
    requires window > 0 && Spread(c) <= window < length + Spread(c)
    ensures Skewed(requests, c) && Distinct(requests)
    ensures !WithinAt(window, 2, requests, length, window - Spread(c))
  {
    var server := window - c.lead;
    var r0, r1 := Request(0, 0, "a", false), Request(0, 0, "b", false);
    var r2, r3 := Request(window, server, "c", false), Request(server - c.lag, server, "d", false);
    var three := FirstThree(window, server, r0, r1, r2);
    LastOverAdmits(window, three, r3, length, window - Spread(c));
    requests := three + [r3];
    FourMembers(requests);
    FourClocks(requests, window, c);
  }

  lemma FourCounted(a: Admission, b: Admission, c: Admission, d: Admission, length: nat, t: int)
    requires a.at == b.at == 0 && 0 <= d.at <= t < length
    ensures CountIn([a, b, c] + [d], t - length, t) >= 3
  {
    var h, lo := [a, b, c] + [d], t - length;
    assert |h| == 4 && h[0] == a && h[1] == b && h[2] == c && h[3] == d;
    assert CountUpTo(h, 0, lo, t) == 0;
    assert CountUpTo(h, 1, lo, t) == 1;
    assert CountUpTo(h, 2, lo, t) == 2;
    assert CountUpTo(h, 3, lo, t) >= 2;
  }

  ghost predicate SafeUnderSkew(window: nat, c: Clocks, length: nat) {
    forall limit: nat, requests: seq<Request>, t: int ::
      Skewed(requests, c) && Distinct(requests) ==> WithinAt(window, limit, requests, length, t)
  }

  // With clocks that are behind by up to `lag` and ahead by up to `lead`, the limit holds on every
  // interval of a length, over all limits and runs, exactly when the length is at most the window
  // less lag and lead. With equal clocks this is the window itself.
  lemma SkewCostsExactlyItself(window: nat, c: Clocks, length: nat)
    requires window > 0 && Spread(c) <= window
    ensures SafeUnderSkew(window, c, length) <==> length <= window - Spread(c)
  {
    if length <= window - Spread(c) {
      forall limit: nat, requests: seq<Request>, t: int | Skewed(requests, c) && Distinct(requests)
        ensures WithinAt(window, limit, requests, length, t)
      {
        SkewRun(window, limit, requests, c, length, t);
      }
    } else {
      var requests := SkewedClockOverAdmits(window, c, length);
    }
  }
}
