/** The state-changing endpoints as one transition system: each request is
    a step on the ledger that either commits as a whole or leaves it
    untouched, and any sequence of requests keeps the ledger invariant and
    only ever appends to the trade and audit tables. */
module Operations {
  import opened Wrappers
  import opened Schema
  import opened Ledgers
  import opened Api
  import opened Trading
  import opened TradingProperties
  import opened Wallets

  /** A state-changing request; a trade carries the rate the price client
      gave for it. */
  datatype Op =
    | AddFundsOp(user: nat, amount: Option<real>)
    | BuyOp(user: nat, req: OrderRequest, rate: Option<real>)
    | SellOp(user: nat, req: OrderRequest, rate: Option<real>)

  /** The ledger after a request and the HTTP status of the response. */
  datatype Outcome = Outcome(ledger: Ledger, status: nat)

  /** One request. */
  function Step(l: Ledger, op: Op): (o: Outcome)
    ensures o.status in {Okay, Created, 422, 500, 503}
    ensures o.status != Okay && o.status != Created ==> o.ledger == l
    ensures op.AddFundsOp? ==> (o.status == Okay <==> AddFunds(l, op.user, op.amount).Ok?)
    ensures op.BuyOp? ==> (o.status == Created <==> BuyOrder(l, op.user, op.req, op.rate).Ok?)
    ensures op.SellOp? ==> (o.status == Created <==> SellOrder(l, op.user, op.req, op.rate).Ok?)
  {
    match op
    case AddFundsOp(user, amount) =>
      (match AddFunds(l, user, amount)
       case Ok(d) => Outcome(d.ledger, Okay)
       case Err(e) => Outcome(l, HttpStatus(e)))
    case BuyOp(user, req, rate) =>
      (match BuyOrder(l, user, req, rate)
       case Ok(s) => Outcome(s.ledger, Created)
       case Err(e) => Outcome(l, HttpStatus(e)))
    case SellOp(user, req, rate) =>
      (match SellOrder(l, user, req, rate)
       case Ok(s) => Outcome(s.ledger, Created)
       case Err(e) => Outcome(l, HttpStatus(e)))
  }

  lemma StepKeepsValid(l: Ledger, op: Op)
    requires Valid(l)
    ensures Valid(Step(l, op).ledger)
  {
    match op
    case AddFundsOp(user, amount) =>
      if AddFunds(l, user, amount).Ok? { AddFundsKeepsValid(l, user, amount); }
    case BuyOp(user, req, rate) =>
      if BuyOrder(l, user, req, rate).Ok? { BuyKeepsValid(l, user, req, rate); }
    case SellOp(user, req, rate) =>
      if SellOrder(l, user, req, rate).Ok? { SellKeepsValid(l, user, req, rate); }
  }

  /** The trade and audit tables only grow, by at most one row each. */
  lemma StepAppends(l: Ledger, op: Op)
    ensures var l' := Step(l, op).ledger;
            && |l.trades| <= |l'.trades| <= |l.trades| + 1 && l'.trades[..|l.trades|] == l.trades
            && |l'.transactions| <= |l.transactions| + 1
            && |l.transactions| <= |l'.transactions| && l'.transactions[..|l.transactions|] == l.transactions
            && l'.wallets.Keys == l.wallets.Keys
  {
  }

  /** The ledger after a sequence of requests, in order. */
  function Run(l: Ledger, ops: seq<Op>): Ledger
    decreases |ops|
  {
    if |ops| == 0 then l else Run(Step(l, ops[0]).ledger, ops[1..])
  }

  /** No sequence of requests breaks the invariant: no negative balance or
      holding, one holding per wallet and symbol, an unbroken audit chain
      ending at every balance. */
  lemma {:induction false} RunPreservesValid(l: Ledger, ops: seq<Op>)
    requires Valid(l)
    ensures Valid(Run(l, ops))
    decreases |ops|
  {
    if |ops| > 0 {
      StepKeepsValid(l, ops[0]);
      RunPreservesValid(Step(l, ops[0]).ledger, ops[1..]);
    }
  }

  /** The history tables are append-only over any run: the rows present
      before are still there, unchanged and in place. */
  lemma {:induction false} RunOnlyAppends(l: Ledger, ops: seq<Op>)
    ensures var l' := Run(l, ops);
            && |l.trades| <= |l'.trades| && l'.trades[..|l.trades|] == l.trades
            && |l.transactions| <= |l'.transactions| && l'.transactions[..|l.transactions|] == l.transactions
            && l'.wallets.Keys == l.wallets.Keys
    decreases |ops|
  {
    if |ops| > 0 {
      var m := Step(l, ops[0]).ledger;
      StepAppends(l, ops[0]);
      RunOnlyAppends(m, ops[1..]);
      var l' := Run(m, ops[1..]);
      assert l'.trades[..|l.trades|] == l'.trades[..|m.trades|][..|l.trades|];
      assert l'.transactions[..|l.transactions|] == l'.transactions[..|m.transactions|][..|l.transactions|];
    }
  }

  /** Reads change nothing: the balance view is a function of the ledger, so
      two reads with no request between them agree, and a rejected request
      between them leaves them equal too. */
  lemma ReadsAreStable(l: Ledger, user: nat, op: Op)
    requires Step(l, op).status != Okay && Step(l, op).status != Created
    ensures Balance(Step(l, op).ledger, user) == Balance(l, user)
  {
  }
}
