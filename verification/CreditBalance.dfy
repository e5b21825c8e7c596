// The reserve and settle machine of a credit balance.
module CreditBalance {
  import opened Wrappers

  datatype SpendError = NegativeMoney | InsufficientCredits | BudgetExceeded

  datatype Balance = Balance(available: real, reserved: real)

  // Money(available - reserved), which raises below zero.
  function Usable(b: Balance): Result<real, SpendError> {
    if b.available - b.reserved < 0.0 then Err(NegativeMoney) else Ok(b.available - b.reserved)
  }

  predicate Sane(b: Balance) { 0.0 <= b.reserved <= b.available }

  function Reserved(b: Balance, amount: real): Balance { b.(reserved := b.reserved + amount) }

  function Settled(b: Balance, reserved: real, actual: real): Balance {
    Balance(b.available - actual, b.reserved - reserved)
  }

  // The class; amounts are Money, so they are not negative.
  class CreditBalance {
    var available: real
    var reserved: real
    var hardStop: bool

    constructor (available: real, hardStop: bool)
      ensures Now() == Balance(available, 0.0) && this.hardStop == hardStop
    {
      this.available, reserved, this.hardStop := available, 0.0, hardStop;
    }

    function Now(): Balance
      reads this
    {
      Balance(available, reserved)
    }

    method AssertCanSpend(amount: real) returns (r: Option<SpendError>)
      requires amount >= 0.0
      ensures r.None? <==> reserved <= available && amount <= available - reserved
      ensures r == Some(NegativeMoney) <==> available < reserved
      ensures r.Some? && reserved <= available ==> r == Some(if hardStop then InsufficientCredits else BudgetExceeded)
    {
      var usable := Usable(Now());
      if usable.Err? { return Some(usable.error); }
      if usable.value < amount { return Some(if hardStop then InsufficientCredits else BudgetExceeded); }
      r := None;
    }

    // Either takes the amount out of what is usable, or raises and changes nothing.
    method Reserve(amount: real) returns (r: Option<SpendError>)
      requires amount >= 0.0
      modifies this`reserved
      ensures r.None? <==> old(Usable(Now())).Ok? && amount <= old(available - reserved)
      ensures Now() == if r.None? then Reserved(old(Now()), amount) else old(Now())
    {
      r := AssertCanSpend(amount);
      if r.None? { reserved := reserved + amount; }
    }

    method Settle(reservation: real, actual: real)
      requires reservation >= 0.0 && actual >= 0.0
      modifies this`reserved, this`available
      ensures Now() == Settled(old(Now()), reservation, actual)
    {
      reserved := reserved - reservation;
      available := available - actual;
    }
  }

  // Settling an outstanding reservation leaves `usable` defined exactly when the actual cost
  // fits in the reservation and what else is usable.
  lemma SettleKeepsUsableIff(b: Balance, reservation: real, actual: real)
    requires Sane(b) && 0.0 <= reservation <= b.reserved && actual >= 0.0
    ensures Sane(Settled(b, reservation, actual)) <==> actual <= b.available - b.reserved + reservation
    ensures Usable(Settled(b, reservation, actual)).Ok? <==> Sane(Settled(b, reservation, actual))
  {
  }

  // --- Any interleaving of requests ---

  // Requests hold their outstanding reservations by name; `charged` is the sum of all
  // actual costs so far.
  datatype State = State(balance: Balance, outstanding: map<nat, real>, charged: real)

  datatype Action = Reserve(id: nat, amount: real) | Settle(id: nat, actual: real)

  // A reservation raises when it does not fit. Each outstanding reservation is settled at
  // most once, for no more than it and what is usable besides: the exact condition above,
  // which every actual cost within its reservation meets.
  function Step(s: State, a: Action): State {
    match a
    case Reserve(id, amount) =>
      if id !in s.outstanding && amount >= 0.0 && Usable(s.balance).Ok? && amount <= Usable(s.balance).value
      then s.(balance := Reserved(s.balance, amount), outstanding := s.outstanding[id := amount]) else s
    case Settle(id, actual) =>
      if id in s.outstanding && 0.0 <= actual <= s.balance.available - s.balance.reserved + s.outstanding[id]
      then State(Settled(s.balance, s.outstanding[id], actual), s.outstanding - {id}, s.charged + actual) else s
  }

  function Run(s: State, actions: seq<Action>): State
    decreases |actions|
  {
    if actions == [] then s else Run(Step(s, actions[0]), actions[1..])
  }

  ghost function Sum(m: map<nat, real>): real
    decreases |m|
  {
    if m == map[] then 0.0
    else
      assert m.Keys != {};
      var k :| k in m;
      m[k] + Sum(m - {k})
  }

  // The sum does not depend on the order in which entries are taken.
  lemma {:induction false} SumWithout(m: map<nat, real>, k: nat)
    requires k in m
    ensures Sum(m) == m[k] + Sum(m - {k})
    decreases |m|
  {
    assert m.Keys != {};
    var j :| j in m && Sum(m) == m[j] + Sum(m - {j});
    if j != k {
      SumWithout(m - {j}, k);
      SumWithout(m - {k}, j);
      assert m - {j} - {k} == m - {k} - {j};
    }
  }

  lemma SumAdd(m: map<nat, real>, k: nat, v: real)
    requires k !in m
    ensures Sum(m[k := v]) == Sum(m) + v
  {
    SumWithout(m[k := v], k);
    assert m[k := v] - {k} == m;
  }

  lemma {:induction false} SumCovers(m: map<nat, real>, k: nat)
    requires k in m && forall i :: i in m ==> m[i] >= 0.0
    ensures Sum(m) >= m[k] >= 0.0
    decreases |m|
  {
    SumWithout(m, k);
    var rest := m - {k};
    if rest != map[] {
      assert rest.Keys != {};
      var j :| j in rest;
      SumCovers(rest, j);
    }
  }

  ghost predicate Inv(s: State, start: real) {
    && Sane(s.balance)
    && (forall id :: id in s.outstanding ==> s.outstanding[id] >= 0.0)
    && s.balance.reserved == Sum(s.outstanding)
    && s.balance.available + s.charged == start
    && s.charged >= 0.0
  }

  lemma InvStep(s: State, start: real, a: Action)
    requires Inv(s, start)
    ensures Inv(Step(s, a), start)
  {
    match a
    case Reserve(id, amount) =>
      if id !in s.outstanding { SumAdd(s.outstanding, id, amount); }
    case Settle(id, actual) =>
      if id in s.outstanding {
        SumWithout(s.outstanding, id);
        SumCovers(s.outstanding, id);
        RestNonNegative(s.outstanding - {id});
      }
  }

  lemma RestNonNegative(m: map<nat, real>)
    requires forall i :: i in m ==> m[i] >= 0.0
    ensures Sum(m) >= 0.0
  {
    if m != map[] {
      assert m.Keys != {};
      var j :| j in m;
      SumCovers(m, j);
    }
  }

  lemma {:induction false} InvRun(s: State, start: real, actions: seq<Action>)
    requires Inv(s, start)
    ensures Inv(Run(s, actions), start)
    decreases |actions|
  {
    if actions != [] {
      InvStep(s, start, actions[0]);
      InvRun(Step(s, actions[0]), start, actions[1..]);
    }
  }

  // In every interleaving the reserved amount is the sum of the outstanding reservations and
  // never exceeds what is available, so `usable` never raises; and no more than the starting
  // balance is ever charged.
  lemma ReservationsNeverOverspend(start: real, actions: seq<Action>)
    requires start >= 0.0
    ensures
      var s := Run(State(Balance(start, 0.0), map[], 0.0), actions);
      && s.balance.reserved == Sum(s.outstanding)
      && 0.0 <= s.balance.reserved <= s.balance.available && Usable(s.balance).Ok?
      && s.balance.available == start - s.charged && 0.0 <= s.charged <= start
  {
    InvRun(State(Balance(start, 0.0), map[], 0.0), start, actions);
  }
}
