// Pricing, the metering use case as a transaction, and the card top-up.
module Pricing {
  import opened Wrappers

  // Decimal amounts are reals; an amount is valid money when it is not negative.
  datatype MoneyError = NegativeMoney

  type Money = Result<real, MoneyError>

  function MakeMoney(amount: real): (m: Money)
    ensures m.Err? <==> amount < 0.0
    ensures m.Ok? ==> m.value == amount
  {
    if amount < 0.0 then Err(NegativeMoney) else Ok(amount)
  }

  datatype TokenCounts = TokenCounts(input: int, output: int, cachedInput: int, reasoning: int)

  datatype ModelPricing = ModelPricing(
    inputPerMillion: real, outputPerMillion: real,
    cachedInputPerMillion: Option<real>, reasoningPerMillion: Option<real>)

  const MILLION := 1000000.0

  function Tier(tokens: int, perMillion: Option<real>): real {
    if tokens != 0 && perMillion.Some? then tokens as real * perMillion.value / MILLION else 0.0
  }

  function Total(p: ModelPricing, t: TokenCounts): real {
    t.input as real * p.inputPerMillion / MILLION
    + t.output as real * p.outputPerMillion / MILLION
    + Tier(t.cachedInput, p.cachedInputPerMillion)
    + Tier(t.reasoning, p.reasoningPerMillion)
  }

  function Cost(p: ModelPricing, t: TokenCounts): Money { MakeMoney(Total(p, t)) }

  function Plus(a: TokenCounts, b: TokenCounts): TokenCounts {
    TokenCounts(a.input + b.input, a.output + b.output, a.cachedInput + b.cachedInput, a.reasoning + b.reasoning)
  }

  function SumTokens(ts: seq<TokenCounts>): TokenCounts {
    if ts == [] then TokenCounts(0, 0, 0, 0) else Plus(ts[0], SumTokens(ts[1..]))
  }

  // Pricing request by request; the first negative amount raises.
  function SumCosts(p: ModelPricing, ts: seq<TokenCounts>): Money {
    if ts == [] then Ok(0.0)
    else if Cost(p, ts[0]).Err? then Err(NegativeMoney)
    else
      var rest := SumCosts(p, ts[1..]);
      if rest.Err? then rest else MakeMoney(Cost(p, ts[0]).value + rest.value)
  }

  lemma Distribute(a: int, b: int, r: real)
    ensures (a + b) as real * r / MILLION == a as real * r / MILLION + b as real * r / MILLION
  {
    assert (a + b) as real == a as real + b as real;
    assert (a as real + b as real) * r == a as real * r + b as real * r;
  }

  lemma TierLinear(a: int, b: int, r: Option<real>)
    ensures Tier(a + b, r) == Tier(a, r) + Tier(b, r)
  {
    if r.Some? {
      Distribute(a, b, r.value);
      assert 0.0 * r.value / MILLION == 0.0;
    }
  }

  lemma TotalLinear(p: ModelPricing, a: TokenCounts, b: TokenCounts)
    ensures Total(p, Plus(a, b)) == Total(p, a) + Total(p, b)
  {
    Distribute(a.input, b.input, p.inputPerMillion);
    Distribute(a.output, b.output, p.outputPerMillion);
    TierLinear(a.cachedInput, b.cachedInput, p.cachedInputPerMillion);
    TierLinear(a.reasoning, b.reasoning, p.reasoningPerMillion);
  }

  // Metering a list of requests costs exactly the price of their summed token counts,
  // whichever optional tiers are set.
  lemma {:induction false} CostIsLinear(p: ModelPricing, ts: seq<TokenCounts>)
    requires SumCosts(p, ts).Ok?
    ensures SumCosts(p, ts) == Cost(p, SumTokens(ts))
  {
    if ts == [] {
      assert Total(p, TokenCounts(0, 0, 0, 0)) == 0.0;
    } else {
      CostIsLinear(p, ts[1..]);
      TotalLinear(p, ts[0], SumTokens(ts[1..]));
    }
  }

  // The exact price: a million times it is the sum of counts times prices, over the tiers that have one.
  lemma ExactPrice(p: ModelPricing, t: TokenCounts)
    ensures
      var cached := if p.cachedInputPerMillion.Some? then p.cachedInputPerMillion.value else 0.0;
      var reasoning := if p.reasoningPerMillion.Some? then p.reasoningPerMillion.value else 0.0;
      Total(p, t) * 1000000.0 ==
      t.input as real * p.inputPerMillion + t.output as real * p.outputPerMillion
      + t.cachedInput as real * cached + t.reasoning as real * reasoning
    ensures Cost(p, t) == if Total(p, t) < 0.0 then Err(NegativeMoney) else Ok(Total(p, t))
  {
    TierTimesMillion(t.cachedInput, p.cachedInputPerMillion);
    TierTimesMillion(t.reasoning, p.reasoningPerMillion);
  }

  lemma TierTimesMillion(tokens: int, perMillion: Option<real>)
    ensures Tier(tokens, perMillion) * 1000000.0 ==
            tokens as real * if perMillion.Some? then perMillion.value else 0.0
  {
    assert tokens as real * 0.0 == 0.0;
    if perMillion.Some? {
      assert 0.0 * perMillion.value == 0.0;
    }
  }

  // A million tokens of one kind cost what the price list says, or nothing where it has no tier.
  lemma PerMillion(p: ModelPricing)
    requires Priced(p)
    ensures Cost(p, TokenCounts(1000000, 0, 0, 0)) == Ok(p.inputPerMillion)
    ensures Cost(p, TokenCounts(0, 1000000, 0, 0)) == Ok(p.outputPerMillion)
    ensures Cost(p, TokenCounts(0, 0, 1000000, 0)) ==
            Ok(if p.cachedInputPerMillion.Some? then p.cachedInputPerMillion.value else 0.0)
    ensures Cost(p, TokenCounts(0, 0, 0, 1000000)) ==
            Ok(if p.reasoningPerMillion.Some? then p.reasoningPerMillion.value else 0.0)
  {
    ExactPrice(p, TokenCounts(1000000, 0, 0, 0));
    ExactPrice(p, TokenCounts(0, 1000000, 0, 0));
    ExactPrice(p, TokenCounts(0, 0, 1000000, 0));
    ExactPrice(p, TokenCounts(0, 0, 0, 1000000));
  }

  predicate Priced(p: ModelPricing) {
    && p.inputPerMillion >= 0.0 && p.outputPerMillion >= 0.0
    && (p.cachedInputPerMillion.Some? ==> p.cachedInputPerMillion.value >= 0.0)
    && (p.reasoningPerMillion.Some? ==> p.reasoningPerMillion.value >= 0.0)
  }

  predicate Counted(t: TokenCounts) {
    t.input >= 0 && t.output >= 0 && t.cachedInput >= 0 && t.reasoning >= 0
  }

  lemma ProductNonNegative(n: int, r: real)
    requires n >= 0 && r >= 0.0
    ensures n as real * r / MILLION >= 0.0
  {
    assert n as real >= 0.0;
    assert n as real * r >= 0.0;
  }

  // Prices and counts that are not negative never raise.
  lemma {:induction false} CountsNeverRaise(p: ModelPricing, ts: seq<TokenCounts>)
    requires Priced(p) && forall i :: 0 <= i < |ts| ==> Counted(ts[i])
    ensures SumCosts(p, ts).Ok? && SumCosts(p, ts).value >= 0.0
  {
    if ts != [] {
      var t := ts[0];
      ProductNonNegative(t.input, p.inputPerMillion);
      ProductNonNegative(t.output, p.outputPerMillion);
      if p.cachedInputPerMillion.Some? { ProductNonNegative(t.cachedInput, p.cachedInputPerMillion.value); }
      if p.reasoningPerMillion.Some? { ProductNonNegative(t.reasoning, p.reasoningPerMillion.value); }
      CountsNeverRaise(p, ts[1..]);
    }
  }

  // --- Dollars and cents ---

  // to_integral_value: rounds to the nearest integer, halves to the even one.
  function RoundHalfEven(x: real): (n: int)
    ensures -0.5 <= n as real - x <= 0.5
    ensures n as real - x == 0.5 || n as real - x == -0.5 ==> n % 2 == 0
  {
    var f := x.Floor;
    var d := x - f as real;
    if d < 0.5 then f else if d > 0.5 then f + 1 else if f % 2 == 0 then f else f + 1
  }

  function Cents(dollars: real): int { RoundHalfEven(dollars * 100.0) }

  function Dollars(cents: int): real { cents as real / 100.0 }

  predicate WholeCents(dollars: real) { (dollars * 100.0).Floor as real == dollars * 100.0 }

  // What is credited is within half a cent of what was asked for, and equal to it exactly
  // for whole cents.
  lemma CreditedAmount(dollars: real)
    ensures -0.005 <= Dollars(Cents(dollars)) - dollars <= 0.005
    ensures Dollars(Cents(dollars)) == dollars <==> WholeCents(dollars)
    ensures dollars >= 0.0 ==> Cents(dollars) >= 0
  {
    var x := dollars * 100.0;
    var n := Cents(dollars);
    assert -0.5 <= n as real - x <= 0.5;
    assert Dollars(n) - dollars == (n as real - x) / 100.0;
    if Dollars(n) == dollars { assert x == n as real; }
  }
}

// The metering use case, one call at a time.
module Metering {
  import opened Wrappers
  import opened Pricing

  type Org = string

  datatype UsageRecord = UsageRecord(org: Org, tokens: TokenCounts, cost: real, cacheHit: bool)

  datatype Command = Command(org: Org, tokens: TokenCounts, pricing: ModelPricing, cacheHit: bool)

  // An exception that the database raises at one of the three statements.
  datatype Fault = NoFault | DeductFails | AddFails | CommitFails

  datatype MeterError = InvalidCost | InsufficientCredits | DatabaseFault

  // The tables as one session sees them.
  datatype Tables = Tables(available: map<Org, real>, usage: seq<UsageRecord>)

  class Database {
    var tables: Tables

    constructor (tables: Tables)
      ensures this.tables == tables
    {
      this.tables := tables;
    }
  }

  // One session per use case: it works on its own view, and only commit publishes it.
  class SqlUnitOfWork {
    const db: Database
    var session: Option<Tables>

    constructor (db: Database)
      ensures this.db == db && session == None
    {
      this.db := db;
      session := None;
    }

    method Enter()
      modifies this
      ensures session == Some(db.tables)
    {
      session := Some(db.tables);
    }

    // UPDATE ... WHERE available >= amount; true when a row was changed.
    method DeductAtomic(org: Org, amount: real) returns (ok: bool)
      requires session.Some?
      modifies this
      ensures ok <==> org in old(session.value).available && old(session.value).available[org] >= amount
      ensures session.Some? && session.value.usage == old(session.value).usage
      ensures session.value.available == if ok
        then old(session.value).available[org := old(session.value).available[org] - amount]
        else old(session.value).available
    {
      var t := session.value;
      ok := org in t.available && t.available[org] >= amount;
      if ok {
        session := Some(t.(available := t.available[org := t.available[org] - amount]));
      }
    }

    method AddUsage(record: UsageRecord)
      requires session.Some?
      modifies this
      ensures session == Some(old(session.value).(usage := old(session.value).usage + [record]))
    {
      session := Some(session.value.(usage := session.value.usage + [record]));
    }

    method Commit()
      requires session.Some?
      modifies db
      ensures db.tables == session.value
    {
      db.tables := session.value;
    }

    method Rollback()
      requires session.Some?
      modifies this
      ensures session == Some(db.tables)
    {
      session := Some(db.tables);
    }

    // Rolls back when an exception leaves the block, and always closes the session.
    method Exit(raised: bool)
      requires session.Some?
      modifies this
      ensures session == None
    {
      if raised { Rollback(); }
      session := None;
    }
  }

  predicate Affordable(t: Tables, org: Org, cost: real) {
    cost <= 0.0 || (org in t.available && t.available[org] >= cost)
  }

  // A use case that costs nothing runs no deduction, so none can fail.
  predicate Strikes(fault: Fault, cost: real) {
    fault == AddFails || fault == CommitFails || (fault == DeductFails && cost > 0.0)
  }

  class BillingService {
    const uow: SqlUnitOfWork

    constructor (uow: SqlUnitOfWork)
      ensures this.uow == uow
    {
      this.uow := uow;
    }

    // A call either records the usage and takes its cost off the balance, or fails and
    // leaves both tables as they were.
    method Meter(cmd: Command, fault: Fault) returns (r: Result<UsageRecord, MeterError>)
      modifies uow, uow.db
      ensures
        var cost := if cmd.cacheHit then Ok(0.0) else Cost(cmd.pricing, cmd.tokens);
        && (r == Err(InvalidCost) <==> cost.Err?)
        && (r == Err(InsufficientCredits) <==>
              cost.Ok? && fault != DeductFails && !Affordable(old(uow.db.tables), cmd.org, cost.value))
        && (r.Ok? <==>
              cost.Ok? && !Strikes(fault, cost.value) && Affordable(old(uow.db.tables), cmd.org, cost.value))
        && (r.Ok? ==> r.value == UsageRecord(cmd.org, cmd.tokens, cost.value, cmd.cacheHit))
      ensures r.Err? ==> uow.db.tables == old(uow.db.tables)
      ensures r.Ok? ==>
        var before := old(uow.db.tables);
        var cost := r.value.cost;
        && cost >= 0.0 && Affordable(before, cmd.org, cost)
        && uow.db.tables.usage == before.usage + [r.value]
        && uow.db.tables.available ==
             if cost > 0.0 then before.available[cmd.org := before.available[cmd.org] - cost] else before.available
      ensures r != Err(InvalidCost) ==> uow.session == None
    {
      var price: Money := if cmd.cacheHit then Ok(0.0) else Cost(cmd.pricing, cmd.tokens);
      if price.Err? { return Err(InvalidCost); }
      var cost := price.value;
      uow.Enter();
      if cost > 0.0 {
        if fault == DeductFails {
          uow.Exit(true);
          return Err(DatabaseFault);
        }
        var ok := uow.DeductAtomic(cmd.org, cost);
        if !ok {
          uow.Exit(true);
          return Err(InsufficientCredits);
        }
      }
      var record := UsageRecord(cmd.org, cmd.tokens, cost, cmd.cacheHit);
      if fault == AddFails {
        uow.Exit(true);
        return Err(DatabaseFault);
      }
      uow.AddUsage(record);
      if fault == CommitFails {
        uow.Exit(true);
        return Err(DatabaseFault);
      }
      uow.Commit();
      uow.Exit(false);
      r := Ok(record);
    }
  }
}

// The card top-up.
module TopUps {
  import opened Wrappers
  import opened Pricing
  import opened Metering

  function BalanceIn(t: Tables, org: Org): real { if org in t.available then t.available[org] else 0.0 }

  class StripeClient {
    const db: Database

    constructor (db: Database)
      ensures this.db == db
    {
      this.db := db;
    }

    // Every delivered payment event is one top-up of the organisation it names; a missing or
    // empty name credits nobody. An organisation without a row gets one.
    method CreditOrg(org: Option<Org>, cents: int)
      modifies db
      ensures org == None || org == Some("") ==> db.tables == old(db.tables)
      ensures org.Some? && org.value != "" ==>
        && db.tables.usage == old(db.tables.usage)
        && db.tables.available.Keys == old(db.tables.available.Keys) + {org.value}
        && BalanceIn(db.tables, org.value) == BalanceIn(old(db.tables), org.value) + Dollars(cents)
        && forall o :: o in old(db.tables.available) && o != org.value ==>
             db.tables.available[o] == old(db.tables.available[o])
    {
      if org == None || org == Some("") { return; }
      var t := db.tables;
      var amount := Dollars(cents);
      var balance := if org.value !in t.available then amount else t.available[org.value] + amount;
      db.tables := Tables(t.available[org.value := balance], t.usage);
    }
  }
}

// Concurrent metering transactions and top-ups on one database, a statement at a time.
module CreditTransactions {
  import opened Wrappers
  import opened Text
  import M = Metering

  type Org = string

  // A transaction holds the row of its organisation from the statement that changes it to
  // its end; `pending` is the value it will commit there.
  datatype Txn =
    | Meter(org: Org, cost: real, pending: Option<real>, recorded: bool)
    | TopUp(org: Org, amount: real, pending: Option<real>)

  datatype Record = Record(org: Org, amount: real)

  // Committed rows, committed usage and top-ups, running transactions, and row locks.
  datatype State = State(
    available: map<Org, real>, usage: seq<Record>, topUps: seq<Record>,
    txns: map<nat, Txn>, locks: map<Org, nat>)

  function Initial(balances: map<Org, real>): State { State(balances, [], [], map[], map[]) }

  datatype Action =
    | BeginMeter(t: nat, org: Org, cost: real)
    | Deduct(t: nat)
    | AddUsage(t: nat)
    | BeginTopUp(t: nat, org: Org, amount: real)
    | LockRow(t: nat)
    | Commit(t: nat)
    | Abort(t: nat)

  predicate Ready(txn: Txn) {
    match txn
    case Meter(_, cost, pending, recorded) => recorded
    case TopUp(_, _, pending) => pending.Some?
  }

  predicate Enabled(s: State, a: Action) {
    match a
    case BeginMeter(t, _, cost) => t !in s.txns && cost >= 0.0
    case Deduct(t) =>
      t in s.txns && s.txns[t].Meter? && s.txns[t].pending.None? && s.txns[t].cost > 0.0
      && s.txns[t].org !in s.locks
    case AddUsage(t) =>
      t in s.txns && s.txns[t].Meter? && !s.txns[t].recorded && (s.txns[t].cost > 0.0 ==> s.txns[t].pending.Some?)
    case BeginTopUp(t, _, amount) => t !in s.txns && amount >= 0.0
    case LockRow(t) => t in s.txns && s.txns[t].TopUp? && s.txns[t].pending.None? && s.txns[t].org !in s.locks
    case Commit(t) => t in s.txns && Ready(s.txns[t])
    case Abort(t) => t in s.txns
  }

  function Closed(s: State, t: nat): State
    requires t in s.txns
  {
    s.(txns := s.txns - {t}, locks := if s.txns[t].pending.Some? then s.locks - {s.txns[t].org} else s.locks)
  }

  function BalanceOf(s: State, org: Org): real { if org in s.available then s.available[org] else 0.0 }

  // The guarded UPDATE: without a row, or with too little on it, the use case raises and
  // its transaction is rolled back.
  function AfterDeduct(s: State, t: nat): State
    requires t in s.txns && s.txns[t].Meter?
  {
    var x := s.txns[t];
    if x.org in s.available && s.available[x.org] >= x.cost then
      s.(txns := s.txns[t := Meter(x.org, x.cost, Some(s.available[x.org] - x.cost), x.recorded)],
         locks := s.locks[x.org := t])
    else Closed(s, t)
  }

  function AfterCommit(s: State, t: nat): State
    requires t in s.txns
  {
    var x := s.txns[t];
    var s1 := Closed(s, t);
    var s2 := if x.pending.Some? then s1.(available := s.available[x.org := x.pending.value]) else s1;
    if x.Meter? then s2.(usage := s.usage + [Record(x.org, x.cost)])
    else s2.(topUps := s.topUps + [Record(x.org, x.amount)])
  }

  function After(s: State, a: Action): State
    requires Enabled(s, a)
  {
    match a
    case BeginMeter(t, org, cost) => s.(txns := s.txns[t := Meter(org, cost, None, false)])
    case Deduct(t) => AfterDeduct(s, t)
    case AddUsage(t) => s.(txns := s.txns[t := s.txns[t].(recorded := true)])
    case BeginTopUp(t, org, amount) => s.(txns := s.txns[t := TopUp(org, amount, None)])
    case LockRow(t) =>
      var x := s.txns[t];
      s.(txns := s.txns[t := TopUp(x.org, x.amount, Some(BalanceOf(s, x.org) + x.amount))],
         locks := s.locks[x.org := t])
    case Commit(t) => AfterCommit(s, t)
    case Abort(t) => Closed(s, t)
  }

  function Step(s: State, a: Action): State { if Enabled(s, a) then After(s, a) else s }

  function Run(s: State, actions: seq<Action>): State
    decreases |actions|
  {
    if actions == [] then s else Run(Step(s, actions[0]), actions[1..])
  }

  function SumFor(records: seq<Record>, org: Org): real {
    if records == [] then 0.0
    else SumFor(records[..|records| - 1], org)
         + if records[|records| - 1].org == org then records[|records| - 1].amount else 0.0
  }

  lemma SumSnoc(records: seq<Record>, r: Record, org: Org)
    ensures SumFor(records + [r], org) == SumFor(records, org) + if r.org == org then r.amount else 0.0
  {
    assert (records + [r])[..|records|] == records;
  }

  // --- What every step keeps ---

  // A transaction with a pending value owns its row, and computed that value from what is
  // still committed there.
  ghost predicate TxnInv(s: State, t: nat, x: Txn) {
    && (if x.Meter? then x.cost >= 0.0 else x.amount >= 0.0)
    && (x.pending.Some? ==>
          && x.org in s.locks && s.locks[x.org] == t
          && x.pending.value == BalanceOf(s, x.org) + (if x.Meter? then -x.cost else x.amount)
          && x.pending.value >= 0.0
          && (x.Meter? ==> x.cost > 0.0 && x.org in s.available))
    && (x.Meter? && x.recorded && x.cost > 0.0 ==> x.pending.Some?)
  }

  ghost predicate Balanced(s: State, initial: map<Org, real>, org: Org) {
    BalanceOf(s, org) ==
    (if org in initial then initial[org] else 0.0) + SumFor(s.topUps, org) - SumFor(s.usage, org)
  }

  ghost predicate Inv(s: State, initial: map<Org, real>) {
    && (forall org :: org in s.available ==> s.available[org] >= 0.0)
    && (forall t :: t in s.txns ==> TxnInv(s, t, s.txns[t]))
    && (forall org :: Balanced(s, initial, org))
  }

  lemma TxnStep(s: State, initial: map<Org, real>, a: Action, t: nat)
    requires Inv(s, initial) && t in Step(s, a).txns
    ensures TxnInv(Step(s, a), t, Step(s, a).txns[t])
  {
    if Enabled(s, a) {
      if a.t in s.txns { assert TxnInv(s, a.t, s.txns[a.t]); }
      if t in s.txns { assert TxnInv(s, t, s.txns[t]); }
    }
  }

  // Only a commit changes what is committed.
  lemma OnlyCommitsPublish(s: State, a: Action)
    requires !a.Commit?
    ensures
      var s2 := Step(s, a);
      s2.available == s.available && s2.usage == s.usage && s2.topUps == s.topUps
  {
  }

  // A commit moves the balance by what it records.
  lemma CommitBalances(s: State, initial: map<Org, real>, t: nat, org: Org)
    requires Enabled(s, Commit(t)) && TxnInv(s, t, s.txns[t]) && Balanced(s, initial, org)
    ensures Balanced(Step(s, Commit(t)), initial, org)
  {
    var x := s.txns[t];
    if x.Meter? {
      SumSnoc(s.usage, Record(x.org, x.cost), org);
    } else {
      SumSnoc(s.topUps, Record(x.org, x.amount), org);
    }
  }

  lemma BalanceStep(s: State, initial: map<Org, real>, a: Action, org: Org)
    requires Inv(s, initial)
    ensures Balanced(Step(s, a), initial, org)
  {
    assert Balanced(s, initial, org);
    if !a.Commit? {
      OnlyCommitsPublish(s, a);
    } else if Enabled(s, a) {
      CommitBalances(s, initial, a.t, org);
    }
  }

  lemma InvStep(s: State, initial: map<Org, real>, a: Action)
    requires Inv(s, initial)
    ensures Inv(Step(s, a), initial)
  {
    forall t | t in Step(s, a).txns
      ensures TxnInv(Step(s, a), t, Step(s, a).txns[t])
    {
      TxnStep(s, initial, a, t);
    }
    forall org
      ensures Balanced(Step(s, a), initial, org)
    {
      BalanceStep(s, initial, a, org);
    }
    if Enabled(s, a) && a.Commit? { assert TxnInv(s, a.t, s.txns[a.t]); }
  }

  lemma {:induction false} InvRun(s: State, initial: map<Org, real>, actions: seq<Action>)
    requires Inv(s, initial)
    ensures Inv(Run(s, actions), initial)
    decreases |actions|
  {
    if actions != [] {
      InvStep(s, initial, actions[0]);
      InvRun(Step(s, actions[0]), initial, actions[1..]);
    }
  }

  // In every interleaving no committed balance is negative, and each is its initial value
  // plus the top-ups minus the recorded costs.
  lemma CreditsAreConserved(initial: map<Org, real>, actions: seq<Action>, org: Org)
    requires forall o :: o in initial ==> initial[o] >= 0.0
    ensures
      var s := Run(Initial(initial), actions);
      && (org in s.available ==> s.available[org] >= 0.0)
      && BalanceOf(s, org) ==
         (if org in initial then initial[org] else 0.0) + SumFor(s.topUps, org) - SumFor(s.usage, org)
  {
    forall o
      ensures Balanced(Initial(initial), initial, o)
    {
    }
    InvRun(Initial(initial), initial, actions);
    assert Balanced(Run(Initial(initial), actions), initial, org);
  }

  // --- Every run is a serial one ---

  // The transactions that a run commits, in order.
  function Commits(s: State, actions: seq<Action>): seq<Txn>
    decreases |actions|
  {
    if actions == [] then []
    else
      var a := actions[0];
      (if a.Commit? && Enabled(s, a) then [s.txns[a.t]] else []) + Commits(Step(s, a), actions[1..])
  }

  // One transaction at a time, each on what the one before it left.
  function Apply(available: map<Org, real>, x: Txn): map<Org, real> {
    var balance := if x.org in available then available[x.org] else 0.0;
    if x.TopUp? then available[x.org := balance + x.amount]
    else if x.cost > 0.0 then available[x.org := balance - x.cost]
    else available
  }

  function Serial(available: map<Org, real>, xs: seq<Txn>): map<Org, real>
    decreases |xs|
  {
    if xs == [] then available else Serial(Apply(available, xs[0]), xs[1..])
  }

  // Every metering is affordable where it is applied.
  predicate Fits(available: map<Org, real>, x: Txn) {
    x.Meter? ==> M.Affordable(M.Tables(available, []), x.org, x.cost)
  }

  predicate AllFit(available: map<Org, real>, xs: seq<Txn>)
    decreases |xs|
  {
    xs == [] || (Fits(available, xs[0]) && AllFit(Apply(available, xs[0]), xs[1..]))
  }

  function UsageOf(xs: seq<Txn>): seq<Record> {
    if xs == [] then []
    else (if xs[0].Meter? then [Record(xs[0].org, xs[0].cost)] else []) + UsageOf(xs[1..])
  }

  function TopUpsOf(xs: seq<Txn>): seq<Record> {
    if xs == [] then []
    else (if xs[0].TopUp? then [Record(xs[0].org, xs[0].amount)] else []) + TopUpsOf(xs[1..])
  }

  // What is committed at s2 is what was committed at s, and then xs, one at a time.
  predicate Follows(s: State, s2: State, xs: seq<Txn>) {
    && s2.available == Serial(s.available, xs) && AllFit(s.available, xs)
    && s2.usage == s.usage + UsageOf(xs) && s2.topUps == s.topUps + TopUpsOf(xs)
  }

  // A commit publishes what its transaction would do to what is committed now.
  lemma CommitIsApply(s: State, t: nat)
    requires Enabled(s, Commit(t)) && TxnInv(s, t, s.txns[t])
    ensures
      var x, s2 := s.txns[t], Step(s, Commit(t));
      && Fits(s.available, x) && s2.available == Apply(s.available, x)
      && s2.usage == (if x.Meter? then s.usage + [Record(x.org, x.cost)] else s.usage)
      && s2.topUps == (if x.TopUp? then s.topUps + [Record(x.org, x.amount)] else s.topUps)
  {
  }

  lemma FollowsCommit(s: State, t: nat, s2: State, xs: seq<Txn>)
    requires Enabled(s, Commit(t)) && TxnInv(s, t, s.txns[t]) && Follows(Step(s, Commit(t)), s2, xs)
    ensures Follows(s, s2, [s.txns[t]] + xs)
  {
    var x := s.txns[t];
    CommitIsApply(s, t);
    assert ([x] + xs)[1..] == xs;
    if x.Meter? {
      Associate(s.usage, [Record(x.org, x.cost)], UsageOf(xs));
      AppendEmpty(TopUpsOf(xs));
    } else {
      Associate(s.topUps, [Record(x.org, x.amount)], TopUpsOf(xs));
      AppendEmpty(UsageOf(xs));
    }
  }

  lemma {:induction false} FollowsRun(s: State, initial: map<Org, real>, actions: seq<Action>)
    requires Inv(s, initial)
    ensures Follows(s, Run(s, actions), Commits(s, actions))
    decreases |actions|
  {
    if actions == [] {
      AppendEmpty(s.usage);
      AppendEmpty(s.topUps);
    } else {
      var a := actions[0];
      InvStep(s, initial, a);
      FollowsRun(Step(s, a), initial, actions[1..]);
      var xs := Commits(Step(s, a), actions[1..]);
      if a.Commit? && Enabled(s, a) {
        FollowsCommit(s, a.t, Run(s, actions), xs);
      } else {
        AppendEmpty(xs);
        if !a.Commit? { OnlyCommitsPublish(s, a); }
      }
    }
  }

  // Every interleaving has committed what its committed transactions do one at a time, in the order
  // of their commits, each metering affordable where it is applied. A transaction that does not
  // commit, for a failed guard or any exception, leaves nothing, whatever runs beside it.
  lemma EveryRunIsSerial(initial: map<Org, real>, actions: seq<Action>)
    requires forall o :: o in initial ==> initial[o] >= 0.0
    ensures
      var s := Run(Initial(initial), actions);
      var xs := Commits(Initial(initial), actions);
      && s.available == Serial(initial, xs) && AllFit(initial, xs)
      && s.usage == UsageOf(xs) && s.topUps == TopUpsOf(xs)
  {
    assert forall o :: Balanced(Initial(initial), initial, o);
    FollowsRun(Initial(initial), initial, actions);
    AppendEmpty(UsageOf(Commits(Initial(initial), actions)));
    AppendEmpty(TopUpsOf(Commits(Initial(initial), actions)));
  }

  // A metering that runs alone does what the sequential use case does: the cost is deducted
  // and recorded when it is affordable, and otherwise nothing is left of it.
  lemma AloneIsMeter(s: State, t: nat, org: Org, cost: real)
    requires t !in s.txns && org !in s.locks && cost >= 0.0
    ensures
      var s2 := Run(s, [BeginMeter(t, org, cost), Deduct(t), AddUsage(t), Commit(t)]);
      if M.Affordable(M.Tables(s.available, []), org, cost) then
        && s2.usage == s.usage + [Record(org, cost)]
        && s2.available == (if cost > 0.0 then s.available[org := s.available[org] - cost] else s.available)
        && s2.txns == s.txns && s2.locks == s.locks
      else s2 == s
  {
    RunFour(s, BeginMeter(t, org, cost), Deduct(t), AddUsage(t), Commit(t));
    var s1 := Step(s, BeginMeter(t, org, cost));
    assert s1.txns - {t} == s.txns;
    if cost > 0.0 && org in s.available && s.available[org] >= cost {
      var s3 := Step(Step(s1, Deduct(t)), AddUsage(t));
      assert s3.txns - {t} == s.txns;
      assert s3.locks - {org} == s.locks;
    } else if cost == 0.0 {
      assert Step(s1, Deduct(t)) == s1;
      assert Step(s1, AddUsage(t)).txns - {t} == s.txns;
    } else {
      assert Step(s1, Deduct(t)) == s;
    }
  }

  // A metering that is aborted behind any of its statements leaves nothing, whatever was committed
  // before it.
  lemma AbortedLeavesNothing(s: State, t: nat, org: Org, cost: real)
    requires t !in s.txns && org !in s.locks && cost >= 0.0
    ensures Run(s, [BeginMeter(t, org, cost), Abort(t)]) == s
    ensures Run(s, [BeginMeter(t, org, cost), Deduct(t), Abort(t)]) == s
    ensures Run(s, [BeginMeter(t, org, cost), Deduct(t), AddUsage(t), Abort(t)]) == s
  {
    var s1 := Step(s, BeginMeter(t, org, cost));
    assert s1.txns - {t} == s.txns;
    RunTwo(s, BeginMeter(t, org, cost), Abort(t));
    RunThree(s, BeginMeter(t, org, cost), Deduct(t), Abort(t));
    RunFour(s, BeginMeter(t, org, cost), Deduct(t), AddUsage(t), Abort(t));
    AbortUndoes(s, s1, t, org, cost);
    AbortUndoes(s, Step(s1, Deduct(t)), t, org, cost);
    AbortUndoes(s, Step(Step(s1, Deduct(t)), AddUsage(t)), t, org, cost);
  }

  // `s1` is `s` and perhaps the transaction t with the row it holds.
  predicate Opened(s: State, s1: State, t: nat, org: Org, cost: real) {
    s1 == s ||
    (&& t in s1.txns && s1.txns[t].Meter? && s1.txns[t].org == org && s1.txns[t].cost == cost
     && s1 == s.(txns := s.txns[t := s1.txns[t]],
                 locks := if s1.txns[t].pending.Some? then s.locks[org := t] else s.locks))
  }

  lemma AbortUndoes(s: State, s1: State, t: nat, org: Org, cost: real)
    requires t !in s.txns && org !in s.locks && Opened(s, s1, t, org, cost)
    ensures Step(s1, Abort(t)) == s
  {
    if s1 != s {
      assert s1.txns - {t} == s.txns;
      if s1.txns[t].pending.Some? {
        assert s1.locks - {org} == s.locks;
      }
    }
  }

  lemma RunTwo(s: State, a: Action, b: Action)
    ensures Run(s, [a, b]) == Step(Step(s, a), b)
  {
    RunCons(s, a, [b]);
    RunCons(Step(s, a), b, []);
    assert [a] + [b] == [a, b] && [b] + [] == [b];
  }

  lemma RunThree(s: State, a: Action, b: Action, c: Action)
    ensures Run(s, [a, b, c]) == Step(Step(Step(s, a), b), c)
  {
    RunCons(s, a, [b, c]);
    RunTwo(Step(s, a), b, c);
    assert [a] + [b, c] == [a, b, c];
  }

  lemma RunFour(s: State, a: Action, b: Action, c: Action, d: Action)
    ensures Run(s, [a, b, c, d]) == Step(Step(Step(Step(s, a), b), c), d)
  {
    RunCons(s, a, [b, c, d]);
    RunCons(Step(s, a), b, [c, d]);
    RunCons(Step(Step(s, a), b), c, [d]);
    RunCons(Step(Step(Step(s, a), b), c), d, []);
    assert [a] + [b, c, d] == [a, b, c, d] && [b] + [c, d] == [b, c, d] && [c] + [d] == [c, d] && [d] + [] == [d];
  }

  lemma RunCons(s: State, a: Action, rest: seq<Action>)
    ensures Run(s, [a] + rest) == Run(Step(s, a), rest)
  {
    assert ([a] + rest)[1..] == rest;
  }

  // Costs are never charged beyond what was there: recorded usage is covered.
  lemma NoOverspend(initial: map<Org, real>, actions: seq<Action>, org: Org)
    requires forall o :: o in initial ==> initial[o] >= 0.0
    ensures
      var s := Run(Initial(initial), actions);
      SumFor(s.usage, org) <= (if org in initial then initial[org] else 0.0) + SumFor(s.topUps, org)
  {
    CreditsAreConserved(initial, actions, org);
  }
}
