/** The calls of rio-loan, what each of them does, and what a run of them keeps. */
module LoanCalls {
  import opened Primitives
  import opened Books
  import opened LoanTerms
  import opened LoanModel
  import opened LoanBlocks

  datatype Call =
    | CreatePackage(terms: nat, hourlyRate: nat, min: nat)
    | DisablePackage(package: PackageId)
    | Apply(who: AccountId, package: PackageId, collateral: nat, loan: nat, now: nat)
    | Draw(who: AccountId, id: LoanId, amount: nat)
    | Repay(who: AccountId, id: LoanId)
    | AddCollateral(who: AccountId, id: LoanId, amount: nat)
    | MarkLiquidated(id: LoanId, auction: nat)
    | SetPrice(price: nat)
    | SetPaused(on: bool)
    | Transfer(asset: AssetId, from: AccountId, to: AccountId, amount: nat)
    | Block(now: nat)
  {
    predicate SpendsFrom(u: AccountId)
    {
      match this
      case Apply(who, _, _, _, _) => u == who
      case Draw(who, _, _) => u == who
      case Repay(who, _) => u == who
      case AddCollateral(who, _, _) => u == who
      case Transfer(_, from, _, _) => u == from
      case _ => false
    }

    /** A package whose expiry fees can always be paid, and a price that can be divided by. */
    predicate Careful(c: Config)
    {
      match this
      case CreatePackage(terms, hourlyRate, min) => Affordable(c.terms, Package(true, terms, min, hourlyRate))
      case SetPrice(price) => price > 0
      case _ => true
    }
  }

  /** Collateral asset that reaches the shop without a loan behind it. */
  function Gift(c: Config, call: Call, r: Outcome): nat
  {
    if call.Transfer? && r.Done? && call.asset == c.collateral && call.to == c.shop then call.amount else 0
  }

  /** What the module knows at one moment, its pause switch included. */
  datatype Moment = Moment(state: State, paused: bool)

  /** What each call does.  A panic leaves everything as it was. */
  ghost predicate Step(c: Config, call: Call, s: Moment, t: Moment, r: Outcome)
    requires c.WellFormed()
  {
    && (r.Aborted? ==> t == s)
    && (t.paused == if call.SetPaused? then call.on else s.paused)
    && Effect(c, call, s.state, t.state, s.paused, r)
  }

  ghost predicate Effect(c: Config, call: Call, s: State, t: State, paused: bool, r: Outcome)
    requires c.WellFormed()
  {
    match call
    case CreatePackage(terms, hourlyRate, min) => Created(s, t, paused, Package(true, terms, min, hourlyRate), r)
    case DisablePackage(id) => Disabled(s, t, paused, id, r)
    case Apply(who, id, collateral, loan, now) =>
      (r.Done? <==> !paused && Granted(c, s, who, id, collateral, loan, now)) && (r.Failed? ==> Untouched(s, t))
      && (r.Done? ==> LentTo(c, s, t, who, id, collateral, loan, now))
    case Draw(who, id, amount) =>
      (r.Done? <==> !paused && Drawable(c, s, who, id, amount)) && (r.Failed? ==> Untouched(s, t))
      && (r.Done? ==> DrawnFrom(c, s, t, id, amount))
    case Repay(who, id) =>
      (r.Done? <==> !paused && Repayable(c, s, who, id)) && (r.Failed? ==> t == s) && (r.Done? ==> Repaid(c, s, t, id))
    case AddCollateral(who, id, amount) =>
      (r.Done? <==> !paused && Addable(c, s, who, id, amount)) && (r.Failed? ==> t == s)
      && (r.Done? ==> Topped(c, s, t, id, amount))
    case MarkLiquidated(id, auction) =>
      (r.Done? <==> !paused && Payable(c, s, id, auction)) && (r.Failed? ==> t == s)
      && (r.Done? ==> LiquidatedFor(c, s, t, id, auction))
    case SetPrice(price) => r.Done? && t == s.(price := price)
    case SetPaused(_) => r.Done? && t == s
    case Transfer(a, from, to, amount) =>
      !r.Aborted? && (r.Failed? ==> t == s)
      && (r.Done? ==>
            Moves(s, t, a, from, to, amount) && t == s.(free := t.free, issuance := t.issuance, shopBase := t.shopBase))
    case Block(now) => BlockEnds(c, s, t, paused, now, r)
  }

  ghost predicate Created(s: State, t: State, paused: bool, p: Package, r: Outcome)
  {
    && (r.Done? <==>
          !paused && p.terms > 0 && 0 < p.hourlyRate < INTEREST_RATE_PREC && p.min > 0 && s.nextPackage < MAX_U64)
    && (r.Done? ==>
          t == s.(packages := s.packages[s.nextPackage := p], active := s.active[s.nextPackage := p],
                  nextPackage := s.nextPackage + 1))
    && (r.Failed? ==> t == s)
  }

  ghost predicate Disabled(s: State, t: State, paused: bool, id: PackageId, r: Outcome)
  {
    && (r.Done? <==> !paused && id in s.packages)
    && (r.Done? ==> t == s.(packages := s.packages[id := s.packages[id].(active := false)], active := s.active - {id}))
    && (r.Failed? ==> t == s)
  }

  ghost predicate Repayable(c: Config, s: State, who: AccountId, id: LoanId)
  {
    id in s.loans && s.loans[id].who == who && id !in s.liquidating && s.loans[id].total <= Bal(s.free, c.loan, who)
  }

  ghost predicate Addable(c: Config, s: State, who: AccountId, id: LoanId, amount: nat)
  {
    && id in s.loans && s.loans[id].who == who && amount <= Bal(s.free, c.collateral, who)
    && s.loans[id].original + amount <= MAX_BALANCE
  }

  ghost predicate Payable(c: Config, s: State, id: LoanId, auction: nat)
  {
    && id in s.loans && id in s.liquidating && s.loans[id].total <= auction <= Bal(s.free, c.loan, c.liquidator)
    && (auction - s.loans[id].total) * c.terms.liquidationPenalty <= MAX_BALANCE
  }

  /** The debt goes to the shop, the penalty to the pool, and what is left to the borrower. */
  ghost predicate LiquidatedFor(c: Config, s: State, t: State, id: LoanId, auction: nat)
  {
    && id in s.loans && s.loans[id].total <= auction
    && exists p: nat :: PenaltyIs(c.terms, auction - s.loans[id].total, p) && Liquidated(c, s, t, id, auction, p)
  }

  ghost predicate BlockEnds(c: Config, s: State, t: State, paused: bool, now: nat, r: Outcome)
  {
    && !r.Failed?
    && (r.Aborted? <==> !paused && exists id :: id in s.loans && id !in s.liquidating && !CanTurn(c, s, id, now))
    && (r.Done? ==> if paused then t == s else AllLooked(c, s, t, now))
  }

  lemma PanicStep(c: Config, call: Call, s: Moment, m: State)
    requires c.WellFormed() && Effect(c, call, s.state, m, s.paused, Aborted) && !call.SetPaused?
    ensures Step(c, call, s, s, Aborted)
  {
    hide Granted, Drawable, CanTurn, AllLooked;
  }

  /** After a block every loan is in liquidation or below the liquidation ratio, and of those that were not in
      liquidation and below the warning ratio none is left expired. */
  ghost predicate Safe(c: Config, s: State, t: State, now: nat)
  {
    forall id :: id in s.loans ==> SafeLoan(c, s, t, now, id)
  }

  ghost predicate SafeLoan(c: Config, s: State, t: State, now: nat, id: LoanId)
    requires id in s.loans
  {
    && id in t.loans
    && (id !in t.liquidating ==> Below(t.loans[id], t.price, c.terms.liquidation))
    && (id !in s.liquidating && t.loans[id].dueExtend <= now ==>
          !Below(s.loans[id], s.price, c.terms.liquidation) || !Below(s.loans[id], s.price, c.terms.warning))
  }

  lemma BlockStepIsSafe(c: Config, call: Call, s: Moment, t: Moment, r: Outcome)
    requires c.WellFormed() && call.Block? && Step(c, call, s, t, r) && r.Done? && !s.paused
    ensures Safe(c, s.state, t.state, call.now)
  {
    hide AllLooked, Below;
    forall id | id in s.state.loans ensures SafeLoan(c, s.state, t.state, call.now, id) {
      BlockIsSafe(c, s.state, t.state, call.now, id);
    }
  }

  /** With a positive minimum no loan is ever without collateral; otherwise exactly those are that name none and
      are worth less than one unit of it. */
  lemma StepSecures(c: Config, call: Call, s: Moment, t: Moment, r: Outcome)
    requires c.WellFormed() && Laws(c, s.state) && Secured(s.state) && Step(c, call, s, t, r)
    ensures Secured(t.state) <==>
      call.Apply? && r.Done? ==>
        call.collateral > 0 || call.loan * 1_0000_0000 >= s.state.price * c.terms.ltvLimit
  {
    hide Granted, LentTo, AllLooked, CanTurn, Moves, LoanMinted, Settled, AuctionPaid, InterestIs, PenaltyIs, Laws;
    if call.Block? && r.Done? && !s.paused {
      BlockKeepsSecured(c, s.state, t.state, call.now);
    } else if call.Apply? && r.Done? {
      LentSecures(c, s.state, t.state, call.who, call.package, call.collateral, call.loan, call.now);
    }
  }

  lemma LentSecures(c: Config, s: State, t: State, who: AccountId, p: PackageId, collateral: nat, loan: nat, now: nat)
    requires Secured(s) && LentTo(c, s, t, who, p, collateral, loan, now)
    ensures Secured(t) <==> collateral > 0 || loan * 1_0000_0000 >= s.price * c.terms.ltvLimit
  {
    CollateralLeft(loan * 1_0000_0000, s.price * c.terms.ltvLimit, t.loans[s.nextLoan].available);
    hide Funded, InterestIs, DuesAre;
  }

  lemma CollateralLeft(n: nat, d: nat, q: nat)
    ensures q * d <= n < (q + 1) * d ==> (q > 0 <==> n >= d)
  {
    if q > 0 { MulMono(1, q, d); }
  }

  // ---------------------------------------------------------------- runs

  /** The first `k` calls, state by state: the laws hold throughout, and each call does what it is to do. */
  ghost predicate Follows(c: Config, calls: seq<Call>, trace: seq<Moment>, ends: seq<Outcome>, k: nat)
    requires c.WellFormed() && k <= |calls| && k < |trace| && k <= |ends|
  {
    forall i :: 0 <= i < k ==> Laws(c, trace[i].state) && Step(c, calls[i], trace[i], trace[i + 1], ends[i])
  }

  /** After each of their blocks every loan is in liquidation or below its threshold. */
  ghost predicate SafeBlocks(c: Config, calls: seq<Call>, trace: seq<Moment>, ends: seq<Outcome>)
    requires |trace| == |calls| + 1 == |ends| + 1
  {
    forall i :: 0 <= i < |calls| && calls[i].Block? && ends[i].Done? && !trace[i].paused ==>
      Safe(c, trace[i].state, trace[i + 1].state, calls[i].now)
  }

  lemma FollowsOn(c: Config, calls: seq<Call>, trace: seq<Moment>, ends: seq<Outcome>, k: nat, t: Moment, r: Outcome)
    requires c.WellFormed() && k < |calls| && |trace| == k + 1 == |ends| + 1 && Follows(c, calls, trace, ends, k)
    requires Laws(c, trace[k].state) && Step(c, calls[k], trace[k], t, r)
    ensures Follows(c, calls, trace + [t], ends + [r], k + 1)
  {
    hide Laws, Step;
  }

  lemma FollowingIsSafe(c: Config, calls: seq<Call>, trace: seq<Moment>, ends: seq<Outcome>)
    requires c.WellFormed() && |trace| == |calls| + 1 == |ends| + 1 && Follows(c, calls, trace, ends, |calls|)
    ensures SafeBlocks(c, calls, trace, ends)
  {
    hide Laws, Step, Safe;
    forall i | 0 <= i < |calls| && calls[i].Block? && ends[i].Done? && !trace[i].paused
      ensures Safe(c, trace[i].state, trace[i + 1].state, calls[i].now)
    {
      StepKeeps(c, calls[i], trace[i], trace[i + 1], ends[i]);
    }
  }

  lemma SwitchNeverPanics(c: Config, call: Call, s: State, m: State, paused: bool)
    requires c.WellFormed() && Effect(c, call, s, m, paused, Aborted)
    ensures !call.SetPaused?
  {
  }

  /** What a step means for the loans' collateral, and a block for their safety. */
  lemma StepKeeps(c: Config, call: Call, s: Moment, t: Moment, r: Outcome)
    requires c.WellFormed() && Laws(c, s.state) && Step(c, call, s, t, r)
    ensures c.terms.minimumCollateral > 0 && Secured(s.state) ==> Secured(t.state)
    ensures call.Block? && r.Done? && !s.paused ==> Safe(c, s.state, t.state, call.now)
  {
    if call.Block? && r.Done? && !s.paused { BlockStepIsSafe(c, call, s, t, r); }
    if c.terms.minimumCollateral > 0 && Secured(s.state) {
      StepSecures(c, call, s, t, r);
      if call.Apply? && r.Done? {
        GrantedWithinLimit(c, s.state, call.who, call.package, call.collateral, call.loan, call.now);
      }
    }
  }

  lemma Executed(c: Config, call: Call, s: Moment, t: Moment, r: Outcome)
    requires c.WellFormed() && !r.Aborted? && Effect(c, call, s.state, t.state, s.paused, r)
    requires t.paused == if call.SetPaused? then call.on else s.paused
    ensures Step(c, call, s, t, r)
  {
    hide Effect;
  }
}
