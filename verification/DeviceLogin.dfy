// cli/src/api/login.ts: the polling loop of the device authorization grant (RFC 8628,
// section 3.5). Times are in milliseconds.
module DeviceLogin {
  import opened Text

  // What one poll comes back with. A Failure is an error the poll throws (access_denied,
  // expired_token, a transport error).
  datatype Reply = Token(token: string) | Pending | SlowDown | Failure(message: string)

  // What the world does in one turn of the loop: by how much the timer oversleeps, how long the
  // answer takes, and the answer.
  datatype Turn = Turn(late: nat, answering: nat, reply: Reply)

  datatype Poll = Poll(checkedAt: int, sentAt: int, answeredAt: int, interval: int, reply: Reply)

  datatype Outcome = LoggedIn(token: string) | Expired | Threw(message: string)

  // The server's interval, or a second when it asks for less.
  function FirstInterval(seconds: int): (ms: int)
    ensures seconds >= 1 ==> ms == 1000 * seconds
    ensures seconds < 1 ==> ms == 1000
  {
    (if seconds < 1 then 1 else seconds) * 1000
  }

  function NextInterval(interval: int, reply: Reply): int {
    if reply.SlowDown? then interval + 5000 else interval
  }

  predicate Final(reply: Reply) {
    reply.Token? || reply.Failure?
  }

  function Left(now: int, deadline: int): nat {
    if now > deadline then 0 else deadline - now + 1
  }

  // Sleep, then poll.
  function Made(now: int, interval: int, turn: Turn): Poll {
    var sent := now + interval + turn.late;
    Poll(now, sent, sent + turn.answering, interval, turn.reply)
  }

  // The polls made from turn k on.
  function Polls(now: int, interval: int, deadline: int, world: nat -> Turn, k: nat): (ps: seq<Poll>)
    requires interval >= 1000
    decreases Left(now, deadline)
  {
    if now > deadline then []
    else
      var poll := Made(now, interval, world(k));
      [poll] +
      if Final(poll.reply) then []
      else Polls(poll.answeredAt, NextInterval(interval, poll.reply), deadline, world, k + 1)
  }

  function Result(ps: seq<Poll>): Outcome {
    if ps == [] then Expired
    else match ps[|ps| - 1].reply
      case Token(t) => LoggedIn(t)
      case Failure(m) => Threw(m)
      case _ => Expired
  }

  function SlowDowns(ps: seq<Poll>): nat {
    if ps == [] then 0 else SlowDowns(ps[..|ps| - 1]) + if ps[|ps| - 1].reply.SlowDown? then 1 else 0
  }

  function TotalWait(ps: seq<Poll>): int {
    if ps == [] then 0 else TotalWait(ps[..|ps| - 1]) + ps[|ps| - 1].interval
  }

  // Turn i of a run that starts at turn k: what is polled, and how the run goes on or ends.
  ghost predicate TurnIs(all: seq<Poll>, i: nat, deadline: int, world: nat -> Turn, k: nat)
    requires i < |all|
  {
    var p := all[i];
    && p == Made(p.checkedAt, p.interval, world(k + i))
    && (if Final(p.reply) then i + 1 == |all| else i + 1 < |all| <==> p.answeredAt <= deadline)
    && (i + 1 < |all| ==>
          all[i + 1].checkedAt == p.answeredAt && all[i + 1].interval == NextInterval(p.interval, p.reply))
  }

  ghost predicate Turns(all: seq<Poll>, now: int, interval: int, deadline: int, world: nat -> Turn, k: nat) {
    && (all != [] <==> now <= deadline)
    && (all != [] ==> all[0].checkedAt == now && all[0].interval == interval)
    && forall i :: 0 <= i < |all| ==> TurnIs(all, i, deadline, world, k)
  }

  lemma TurnsCons(p: Poll, later: seq<Poll>, now: int, interval: int, deadline: int, world: nat -> Turn, k: nat)
    requires p == Made(now, interval, world(k)) && now <= deadline
    requires if Final(p.reply) then later == []
             else Turns(later, p.answeredAt, NextInterval(interval, p.reply), deadline, world, k + 1)
    ensures Turns([p] + later, now, interval, deadline, world, k)
  {
    var all := [p] + later;
    forall i | 0 <= i < |all|
      ensures TurnIs(all, i, deadline, world, k)
    {
      if i > 0 {
        assert TurnIs(later, i - 1, deadline, world, k + 1);
        assert k + 1 + (i - 1) == k + i;
      }
    }
  }

  lemma {:induction false} PollsAreTurns(now: int, interval: int, deadline: int, world: nat -> Turn, k: nat)
    requires interval >= 1000
    ensures Turns(Polls(now, interval, deadline, world, k), now, interval, deadline, world, k)
    decreases Left(now, deadline)
  {
    if now <= deadline {
      var p := Made(now, interval, world(k));
      if Final(p.reply) {
        TurnsCons(p, [], now, interval, deadline, world, k);
      } else {
        PollsAreTurns(p.answeredAt, NextInterval(interval, p.reply), deadline, world, k + 1);
        TurnsCons(p, Polls(p.answeredAt, NextInterval(interval, p.reply), deadline, world, k + 1),
                  now, interval, deadline, world, k);
      }
    }
  }

  // The loop in front of a turn: the polls made are those of the whole run so far.
  ghost predicate Polling(all: seq<Poll>, done: seq<Poll>, now: int, interval: int, deadline: int) {
    && done <= all && (done != [] ==> !Final(done[|done| - 1].reply))
    && (|done| < |all| <==> now <= deadline)
    && (|done| < |all| ==> all[|done|].checkedAt == now && all[|done|].interval == interval)
  }

  lemma OneTurn(all: seq<Poll>, done: seq<Poll>, now: int, interval: int, deadline: int, world: nat -> Turn, poll: Poll)
    requires Polling(all, done, now, interval, deadline) && now <= deadline
    requires poll == Made(now, interval, world(|done|)) && TurnIs(all, |done|, deadline, world, 0)
    ensures
      if Final(poll.reply) then all == done + [poll]
      else Polling(all, done + [poll], poll.answeredAt, NextInterval(interval, poll.reply), deadline)
  {
    assert all[|done|] == poll;
    assert done + [poll] <= all;
  }

  lemma NoTurnLeft(all: seq<Poll>, done: seq<Poll>, now: int, interval: int, deadline: int)
    requires Polling(all, done, now, interval, deadline) && now > deadline
    ensures all == done && Result(done) == Expired
  {
  }

  // A poll is sent when the interval has been slept, late by as much as the timer is, and its answer
  // is the world's.
  predicate Timed(p: Poll, turn: Turn) {
    && p.sentAt == p.checkedAt + p.interval + turn.late
    && p.answeredAt == p.sentAt + turn.answering && p.reply == turn.reply
  }

  lemma TurnsAreTimed(all: seq<Poll>, deadline: int, world: nat -> Turn)
    requires forall i :: 0 <= i < |all| ==> TurnIs(all, i, deadline, world, 0)
    ensures forall i :: 0 <= i < |all| ==> Timed(all[i], world(i))
    ensures forall i :: 0 <= i < |all| - 1 ==> all[i].reply.Pending? || all[i].reply.SlowDown?
    ensures all != [] && (all[|all| - 1].reply.Pending? || all[|all| - 1].reply.SlowDown?) ==>
              all[|all| - 1].answeredAt > deadline
  {
    assert all != [] ==> TurnIs(all, |all| - 1, deadline, world, 0);
    forall i | 0 <= i < |all|
      ensures Timed(all[i], world(i)) && (i < |all| - 1 ==> all[i].reply.Pending? || all[i].reply.SlowDown?)
    {
      assert TurnIs(all, i, deadline, world, 0);
      assert 0 + i == i;
    }
  }

  // The loop itself. Its end is forced by the deadline, because each turn takes a second or more.
  method Login(seconds: int, expiresIn: int, start: int, world: nat -> Turn)
    returns (outcome: Outcome, polls: seq<Poll>)
    ensures polls == Polls(start, FirstInterval(seconds), start + expiresIn * 1000, world, 0)
    ensures outcome == Result(polls)
    ensures forall t :: outcome == LoggedIn(t) <==> polls != [] && polls[|polls| - 1].reply == Token(t)
    ensures forall m :: outcome == Threw(m) <==> polls != [] && polls[|polls| - 1].reply == Failure(m)
    ensures forall i :: 0 <= i < |polls| ==> Timed(polls[i], world(i))
    ensures forall i :: 0 <= i < |polls| - 1 ==> polls[i].reply.Pending? || polls[i].reply.SlowDown?
    ensures polls != [] && (polls[|polls| - 1].reply.Pending? || polls[|polls| - 1].reply.SlowDown?) ==>
              polls[|polls| - 1].answeredAt > start + expiresIn * 1000
  {
    var interval := FirstInterval(seconds);
    var deadline := start + expiresIn * 1000;
    var now := start;
    polls := [];
    ghost var all := Polls(start, interval, deadline, world, 0);
    PollsAreTurns(start, interval, deadline, world, 0);
    TurnsAreTimed(all, deadline, world);
    while true
      invariant Polling(all, polls, now, interval, deadline)
      decreases |all| - |polls|
    {
      if now > deadline {
        NoTurnLeft(all, polls, now, interval, deadline);
        return Expired, polls;
      }
      var poll := Made(now, interval, world(|polls|));
      OneTurn(all, polls, now, interval, deadline, world, poll);
      polls, now := polls + [poll], poll.answeredAt;
      if Final(poll.reply) { return Result(polls), polls; }
      if poll.reply.SlowDown? { interval := interval + 5000; }
    }
  }

  // One poll follows another by the loop's rules.
  predicate Follows(p: Poll, q: Poll, deadline: int) {
    && !Final(p.reply)
    && q.interval == NextInterval(p.interval, p.reply)
    && p.sentAt <= p.answeredAt == q.checkedAt <= deadline
    && q.sentAt >= q.checkedAt + q.interval
  }

  predicate Schedule(ps: seq<Poll>, now: int, interval: int, deadline: int) {
    && (ps != [] ==> && ps[0].interval == interval
                     && ps[0].checkedAt == now <= deadline
                     && ps[0].sentAt >= now + interval)
    && forall i :: 0 < i < |ps| ==> Follows(ps[i - 1], ps[i], deadline)
  }

  lemma {:induction false} PollsMakeASchedule(now: int, interval: int, deadline: int, world: nat -> Turn, k: nat)
    requires interval >= 1000
    ensures Schedule(Polls(now, interval, deadline, world, k), now, interval, deadline)
    decreases Left(now, deadline)
  {
    var ps := Polls(now, interval, deadline, world, k);
    if now <= deadline && !Final(world(k).reply) {
      var later := Polls(ps[0].answeredAt, NextInterval(interval, ps[0].reply), deadline, world, k + 1);
      PollsMakeASchedule(ps[0].answeredAt, NextInterval(interval, ps[0].reply), deadline, world, k + 1);
      assert ps == [ps[0]] + later;
      forall i | 0 < i < |ps| ensures Follows(ps[i - 1], ps[i], deadline) {
        assert i > 1 ==> Follows(later[i - 2], later[i - 1], deadline);
      }
    }
  }

  lemma ScheduleInit(ps: seq<Poll>, now: int, interval: int, deadline: int)
    requires ps != [] && Schedule(ps, now, interval, deadline)
    ensures Schedule(ps[..|ps| - 1], now, interval, deadline)
  {
    var init := ps[..|ps| - 1];
    forall i | 0 < i < |init| ensures Follows(init[i - 1], init[i], deadline) {
      assert Follows(ps[i - 1], ps[i], deadline);
    }
  }

  // The interval is the first one plus five seconds per slow_down so far.
  lemma {:induction false} IntervalCountsSlowDowns(ps: seq<Poll>, now: int, interval: int, deadline: int)
    requires ps != [] && Schedule(ps, now, interval, deadline)
    ensures ps[|ps| - 1].interval == interval + 5000 * SlowDowns(ps[..|ps| - 1])
  {
    var init := ps[..|ps| - 1];
    if init != [] {
      ScheduleInit(ps, now, interval, deadline);
      IntervalCountsSlowDowns(init, now, interval, deadline);
      assert Follows(ps[|init| - 1], ps[|init|], deadline);
    }
  }

  // By the check before the last poll, all the waits before it have gone by.
  lemma {:induction false} WaitsAddUp(ps: seq<Poll>, now: int, interval: int, deadline: int)
    requires ps != [] && Schedule(ps, now, interval, deadline)
    ensures now + TotalWait(ps[..|ps| - 1]) <= ps[|ps| - 1].checkedAt <= deadline
  {
    var init := ps[..|ps| - 1];
    if init != [] {
      ScheduleInit(ps, now, interval, deadline);
      WaitsAddUp(init, now, interval, deadline);
      assert Follows(ps[|init| - 1], ps[|init|], deadline);
      assert init[|init| - 1].sentAt >= init[|init| - 1].checkedAt + init[|init| - 1].interval by {
        assert |init| > 1 ==> Follows(ps[|init| - 2], ps[|init| - 1], deadline);
      }
    }
  }

  lemma {:induction false} WaitAtLeast(ps: seq<Poll>, now: int, interval: int, deadline: int)
    requires Schedule(ps, now, interval, deadline)
    ensures TotalWait(ps) >= |ps| * interval
  {
    if ps != [] {
      ScheduleInit(ps, now, interval, deadline);
      WaitAtLeast(ps[..|ps| - 1], now, interval, deadline);
      IntervalCountsSlowDowns(ps, now, interval, deadline);
      OneMore(|ps|, interval);
    }
  }

  predicate AllSlowDown(ps: seq<Poll>) {
    forall i :: 0 <= i < |ps| ==> ps[i].reply.SlowDown?
  }

  lemma {:induction false} AllCounted(ps: seq<Poll>)
    requires AllSlowDown(ps)
    ensures SlowDowns(ps) == |ps|
  {
    if ps != [] {
      AllCounted(ps[..|ps| - 1]);
    }
  }

  lemma {:induction false} WaitWhenAllSlowDown(ps: seq<Poll>, now: int, interval: int, deadline: int)
    requires Schedule(ps, now, interval, deadline) && AllSlowDown(ps)
    ensures TotalWait(ps) == |ps| * interval + 2500 * Triangle(|ps|)
  {
    if ps != [] {
      var init := ps[..|ps| - 1];
      ScheduleInit(ps, now, interval, deadline);
      WaitWhenAllSlowDown(init, now, interval, deadline);
      IntervalCountsSlowDowns(ps, now, interval, deadline);
      AllCounted(init);
      OneMore(|ps|, interval);
    }
  }

  function Triangle(n: int): int {
    n * (n - 1)
  }

  lemma OneMore(n: int, interval: int)
    ensures n * interval == (n - 1) * interval + interval
    ensures Triangle(n) == Triangle(n - 1) + 2 * (n - 1)
  {
  }

  // RFC 8628, section 3.5, over every run of the loop.
  lemma PollingIsPaced(seconds: int, expiresIn: int, start: int, world: nat -> Turn, i: nat, j: nat)
    requires i < j < |Polls(start, FirstInterval(seconds), start + expiresIn * 1000, world, 0)|
    ensures var ps := Polls(start, FirstInterval(seconds), start + expiresIn * 1000, world, 0);
            && ps[j].interval == FirstInterval(seconds) + 5000 * SlowDowns(ps[..j])
            && ps[i].interval <= ps[j].interval
            && ps[i].answeredAt + ps[j].interval <= ps[j].sentAt
  {
    var interval, deadline := FirstInterval(seconds), start + expiresIn * 1000;
    var ps := Polls(start, interval, deadline, world, 0);
    PollsMakeASchedule(start, interval, deadline, world, 0);
    SchedulePrefix(ps, start, interval, deadline, j + 1);
    IntervalCountsSlowDowns(ps[..j + 1], start, interval, deadline);
    assert ps[..j + 1][..j] == ps[..j];
    LaterPoll(ps, start, interval, deadline, i, j);
  }

  lemma SchedulePrefix(ps: seq<Poll>, now: int, interval: int, deadline: int, n: nat)
    requires n <= |ps| && Schedule(ps, now, interval, deadline)
    ensures Schedule(ps[..n], now, interval, deadline)
  {
    forall i | 0 < i < n ensures Follows(ps[..n][i - 1], ps[..n][i], deadline) {
      assert Follows(ps[i - 1], ps[i], deadline);
    }
  }

  lemma {:induction false} LaterPoll(ps: seq<Poll>, now: int, interval: int, deadline: int, i: nat, j: nat)
    requires i < j < |ps| && interval >= 0 && Schedule(ps, now, interval, deadline)
    ensures ps[i].interval <= ps[j].interval && ps[i].answeredAt + ps[j].interval <= ps[j].sentAt
    ensures 0 <= ps[j].interval
    decreases j
  {
    assert Follows(ps[j - 1], ps[j], deadline);
    if j - 1 > i {
      LaterPoll(ps, now, interval, deadline, i, j - 1);
    } else if i > 0 {
      LaterPoll(ps, now, interval, deadline, i - 1, i);
    }
  }

  // n polls fit in the code's lifetime of E ms only if (n-1)*I <= E; if every poll before the
  // last is told to slow down, only if (n-1)*I + 2500*(n-1)*(n-2) <= E.
  lemma PollsAreFew(seconds: int, expiresIn: int, start: int, world: nat -> Turn)
    ensures var interval := FirstInterval(seconds);
            var ps := Polls(start, interval, start + expiresIn * 1000, world, 0);
            var n := |ps|;
            n >= 1 ==>
              && (n - 1) * interval <= expiresIn * 1000
              && (AllSlowDown(ps[..n - 1]) ==>
                    (n - 1) * interval + 2500 * ((n - 1) * (n - 2)) <= expiresIn * 1000)
  {
    var interval, deadline := FirstInterval(seconds), start + expiresIn * 1000;
    var ps := Polls(start, interval, deadline, world, 0);
    if ps != [] {
      PollsMakeASchedule(start, interval, deadline, world, 0);
      WaitsAddUp(ps, start, interval, deadline);
      ScheduleInit(ps, start, interval, deadline);
      WaitAtLeast(ps[..|ps| - 1], start, interval, deadline);
      if AllSlowDown(ps[..|ps| - 1]) {
        WaitWhenAllSlowDown(ps[..|ps| - 1], start, interval, deadline);
      }
    }
  }

  // The deadline is looked at before the sleep, not after it: every poll but the last is sent
  // before the code expires.
  lemma OnlyTheLastPollCanBeLate(seconds: int, expiresIn: int, start: int, world: nat -> Turn, i: nat)
    requires i < |Polls(start, FirstInterval(seconds), start + expiresIn * 1000, world, 0)|
    ensures var deadline := start + expiresIn * 1000;
            var ps := Polls(start, FirstInterval(seconds), deadline, world, 0);
            ps[i].sentAt > deadline ==> i == |ps| - 1
  {
    var interval, deadline := FirstInterval(seconds), start + expiresIn * 1000;
    var ps := Polls(start, interval, deadline, world, 0);
    PollsMakeASchedule(start, interval, deadline, world, 0);
    if i + 1 < |ps| {
      assert Follows(ps[i], ps[i + 1], deadline);
    }
  }

  // The loop stops only at a final reply or behind the deadline.
  lemma {:induction false} StopsForAReason(now: int, interval: int, deadline: int, world: nat -> Turn, k: nat)
    requires interval >= 1000 && now <= deadline
    ensures
      var ps := Polls(now, interval, deadline, world, k);
      ps != [] && (Final(ps[|ps| - 1].reply) || ps[|ps| - 1].answeredAt > deadline)
    decreases Left(now, deadline)
  {
    var poll := Made(now, interval, world(k));
    if !Final(poll.reply) && poll.answeredAt <= deadline {
      StopsForAReason(poll.answeredAt, NextInterval(interval, poll.reply), deadline, world, k + 1);
    }
  }

  predicate Late(ps: seq<Poll>, deadline: int) {
    exists i :: 0 <= i < |ps| && ps[i].sentAt > deadline
  }

  // A poll sent in time that ends the loop: by a final reply, or by an answer that comes too late
  // for another turn.
  predicate Ends(p: Poll, deadline: int) {
    p.sentAt <= deadline && (Final(p.reply) || p.answeredAt > deadline)
  }

  // A poll is sent behind the deadline exactly when the loop is entered in time and no poll sent by
  // the deadline ends it.
  lemma LatePollIff(seconds: int, expiresIn: int, start: int, world: nat -> Turn)
    ensures
      var deadline := start + expiresIn * 1000;
      var ps := Polls(start, FirstInterval(seconds), deadline, world, 0);
      Late(ps, deadline) <==> expiresIn >= 0 && forall i :: 0 <= i < |ps| ==> !Ends(ps[i], deadline)
  {
    var interval, deadline := FirstInterval(seconds), start + expiresIn * 1000;
    var ps := Polls(start, interval, deadline, world, 0);
    PollsMakeASchedule(start, interval, deadline, world, 0);
    if expiresIn >= 0 {
      StopsForAReason(start, interval, deadline, world, 0);
    }
    if Late(ps, deadline) {
      var l :| 0 <= l < |ps| && ps[l].sentAt > deadline;
      OnlyTheLastPollCanBeLate(seconds, expiresIn, start, world, l);
      forall i | 0 <= i < |ps|
        ensures !Ends(ps[i], deadline)
      {
        if i < l {
          assert Follows(ps[i], ps[i + 1], deadline);
        }
      }
    } else if expiresIn >= 0 {
      assert Ends(ps[|ps| - 1], deadline);
    }
  }

  // With answers that come at once: exactly when no poll sent by the deadline gets a final reply.
  lemma LatePollIffUnanswered(seconds: int, expiresIn: int, start: int, world: nat -> Turn)
    requires forall k :: world(k).answering == 0
    ensures
      var deadline := start + expiresIn * 1000;
      var ps := Polls(start, FirstInterval(seconds), deadline, world, 0);
      Late(ps, deadline) <==>
        expiresIn >= 0 && forall i :: 0 <= i < |ps| && ps[i].sentAt <= deadline ==> !Final(ps[i].reply)
  {
    var deadline := start + expiresIn * 1000;
    AnsweredAtOnce(start, FirstInterval(seconds), deadline, world, 0);
    LatePollIff(seconds, expiresIn, start, world);
    var ps := Polls(start, FirstInterval(seconds), deadline, world, 0);
    assert forall i :: 0 <= i < |ps| ==> (Ends(ps[i], deadline) <==> ps[i].sentAt <= deadline && Final(ps[i].reply));
  }

  predicate AtOnce(ps: seq<Poll>) {
    forall i :: 0 <= i < |ps| ==> ps[i].answeredAt == ps[i].sentAt
  }

  lemma AtOnceCons(p: Poll, ps: seq<Poll>)
    requires p.answeredAt == p.sentAt && AtOnce(ps)
    ensures AtOnce([p] + ps)
  {
  }

  lemma {:induction false} AnsweredAtOnce(now: int, interval: int, deadline: int, world: nat -> Turn, k: nat)
    requires interval >= 1000 && forall j :: world(j).answering == 0
    ensures AtOnce(Polls(now, interval, deadline, world, k))
    decreases Left(now, deadline)
  {
    if now <= deadline {
      var poll := Made(now, interval, world(k));
      if Final(poll.reply) {
        AtOnceCons(poll, []);
      } else {
        AnsweredAtOnce(poll.answeredAt, NextInterval(interval, poll.reply), deadline, world, k + 1);
        AtOnceCons(poll, Polls(poll.answeredAt, NextInterval(interval, poll.reply), deadline, world, k + 1));
      }
    }
  }

  // A login that expires after polling has had its last answer behind the deadline, without a token.
  lemma ExpiredMeansAnsweredLate(seconds: int, expiresIn: int, start: int, world: nat -> Turn)
    ensures
      var deadline := start + expiresIn * 1000;
      var ps := Polls(start, FirstInterval(seconds), deadline, world, 0);
      Result(ps) == Expired <==>
        expiresIn < 0 || (ps != [] && !Final(ps[|ps| - 1].reply) && ps[|ps| - 1].answeredAt > deadline)
  {
    if expiresIn >= 0 {
      StopsForAReason(start, FirstInterval(seconds), start + expiresIn * 1000, world, 0);
    }
  }

  // A code that lives shorter than the first sleep is polled for behind its deadline, whatever the
  // world does, and can still log in there.
  lemma ALatePollIsSent(seconds: int, expiresIn: int, start: int, world: nat -> Turn)
    requires 0 <= expiresIn * 1000 < FirstInterval(seconds)
    ensures
      var deadline := start + expiresIn * 1000;
      var ps := Polls(start, FirstInterval(seconds), deadline, world, 0);
      && Late(ps, deadline)
      && (world(0).reply.Token? ==> Result(ps) == LoggedIn(world(0).reply.token))
  {
    var deadline := start + expiresIn * 1000;
    var ps := Polls(start, FirstInterval(seconds), deadline, world, 0);
    assert ps[0] == Made(start, FirstInterval(seconds), world(0)) && ps[0].sentAt > deadline;
    if world(0).reply.Token? {
      AppendEmpty([ps[0]]);
      assert ps == [ps[0]];
    }
  }
}
