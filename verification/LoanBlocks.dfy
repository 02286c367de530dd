/** What the start of a block does to all loans of rio-loan at once. */
module LoanBlocks {
  import opened Primitives
  import opened Books
  import opened LoanTerms
  import opened LoanModel

  function TurnOf(c: Config, s: State, id: LoanId, now: nat): Checked<Turn>
  {
    if id in s.loans && s.loans[id].package in s.packages
    then TakeTurn(c.terms, s.packages[s.loans[id].package], s.loans[id], now, s.price)
    else Overflow
  }

  /** A loan whose turn came: unless it was in liquidation before, it is as its turn left it. */
  ghost predicate Turned(c: Config, s: State, t: State, id: LoanId, now: nat)
    requires id in s.loans && id in t.loans
  {
    if id in s.liquidating then t.loans[id] == s.loans[id]
    else TurnOf(c, s, id, now).Ok? && t.loans[id] == TurnOf(c, s, id, now).value.loan
  }

  ghost predicate SeizedNow(c: Config, s: State, id: LoanId, now: nat)
  {
    id in s.loans && id !in s.liquidating && TurnOf(c, s, id, now).Ok? && TurnOf(c, s, id, now).value.seized
  }

  /** Every loan but those in `todo` had its turn, and `fees` were taken out of collateral. */
  ghost predicate TurnsTaken(c: Config, s: State, t: State, todo: set<LoanId>, now: nat, fees: nat)
  {
    && t.loans.Keys == s.loans.Keys
    && (forall id :: id in s.loans ==> if id in todo then t.loans[id] == s.loans[id] else Turned(c, s, t, id, now))
    && NoDuplicates(t.liquidating)
    && (forall id :: id in t.liquidating <==> id in s.liquidating || (id !in todo && SeizedNow(c, s, id, now)))
    && Sum(Available(t.loans)) + fees == Sum(Available(s.loans)) && Sum(Debts(t.loans)) == Sum(Debts(s.loans))
  }

  ghost predicate OnlyLoans(s: State, t: State)
  {
    && t.free == s.free && t.issuance == s.issuance && t.byAccount == s.byAccount && t.packages == s.packages
    && t.active == s.active && t.nextLoan == s.nextLoan && t.nextPackage == s.nextPackage && t.totalLoan == s.totalLoan
    && t.totalCollateral == s.totalCollateral && t.totalProfit == s.totalProfit && t.price == s.price
    && t.writtenOff == s.writtenOff && t.defaulted == s.defaulted
    && t.loanBase == s.loanBase && t.shopBase == s.shopBase
  }

  lemma NoTurns(c: Config, s: State, now: nat)
    requires Liquidations(s)
    ensures TurnsTaken(c, s, s, s.loans.Keys, now, 0) && OnlyLoans(s, s)
  {
  }

  /** A loan that is being liquidated is passed over. */
  lemma PassOver(c: Config, s: State, m: State, todo: set<LoanId>, now: nat, fees: nat, id: LoanId)
    requires TurnsTaken(c, s, m, todo, now, fees) && id in todo && todo <= s.loans.Keys && id in m.liquidating
    ensures TurnsTaken(c, s, m, todo - {id}, now, fees)
  {
    assert id in s.liquidating;
    assert Turned(c, s, m, id, now);
  }

  /** One more loan takes its turn. */
  lemma OneTurn(c: Config, s: State, m: State, t: State, todo: set<LoanId>, now: nat, fees: nat, id: LoanId, turn: Turn)
    requires TurnsTaken(c, s, m, todo, now, fees) && id in todo && todo <= s.loans.Keys && id !in m.liquidating
    requires TurnOf(c, s, id, now) == Ok(turn)
    requires t.loans == m.loans[id := turn.loan]
    requires t.liquidating == if turn.seized then m.liquidating + [id] else m.liquidating
    ensures TurnsTaken(c, s, t, todo - {id}, now, fees + turn.fee)
  {
    TurnFees(c, s, id, now);
    hide TurnOf;
    LoanSet(m.loans, id, turn.loan);
    OneTurnLoans(c, s, m, t, todo, now, fees, id, turn);
    OneTurnList(c, s, m, t, todo, now, fees, id, turn);
    hide Turned, SeizedNow, Available, Debts, NoDuplicates;
  }

  lemma TurnFees(c: Config, s: State, id: LoanId, now: nat)
    requires TurnOf(c, s, id, now).Ok?
    ensures id in s.loans
    ensures TurnOf(c, s, id, now).value.loan.available + TurnOf(c, s, id, now).value.fee == s.loans[id].available
    ensures TurnOf(c, s, id, now).value.loan.total == s.loans[id].total
  {
    TurnLaws(c.terms, s.packages[s.loans[id].package], s.loans[id], now, s.price);
    hide TakeTurn;
  }

  lemma OneTurnLoans(c: Config, s: State, m: State, t: State, todo: set<LoanId>, now: nat, fees: nat, id: LoanId,
                     turn: Turn)
    requires TurnsTaken(c, s, m, todo, now, fees) && id in todo && todo <= s.loans.Keys && id !in m.liquidating
    requires TurnOf(c, s, id, now) == Ok(turn) && t.loans == m.loans[id := turn.loan]
    ensures t.loans.Keys == s.loans.Keys
    ensures forall x :: x in s.loans ==> if x in todo - {id} then t.loans[x] == s.loans[x] else Turned(c, s, t, x, now)
  {
    hide TurnOf;
    assert id !in s.liquidating;
    assert t.loans.Keys == s.loans.Keys;
    forall x | x in s.loans && x !in todo - {id} ensures Turned(c, s, t, x, now) {
      if x != id { assert Turned(c, s, m, x, now); }
    }
  }

  lemma OneTurnList(c: Config, s: State, m: State, t: State, todo: set<LoanId>, now: nat, fees: nat, id: LoanId,
                    turn: Turn)
    requires TurnsTaken(c, s, m, todo, now, fees) && id in todo && todo <= s.loans.Keys && id !in m.liquidating
    requires TurnOf(c, s, id, now) == Ok(turn)
    requires t.liquidating == if turn.seized then m.liquidating + [id] else m.liquidating
    ensures NoDuplicates(t.liquidating)
    ensures forall x :: x in t.liquidating <==> x in s.liquidating || (x !in todo - {id} && SeizedNow(c, s, x, now))
  {
    hide TurnOf, Turned, Available, Debts;
    if turn.seized { PushHolds(m.liquidating, id); }
    assert SeizedNow(c, s, id, now) <==> turn.seized;
  }

  /** A complete block: every turn taken, and the fees moved from the shop to the pool. */
  ghost predicate BlockDone(c: Config, s: State, t: State, now: nat, fees: nat)
  {
    && TurnsTaken(c, s, t, {}, now, fees)
    && Moves(s, t, c.collateral, c.shop, c.pool, fees) && t.totalCollateral == s.totalCollateral - fees
    && t.byAccount == s.byAccount && t.packages == s.packages && t.active == s.active
    && t.nextLoan == s.nextLoan && t.nextPackage == s.nextPackage && t.totalLoan == s.totalLoan
    && t.totalProfit == s.totalProfit
    && t.price == s.price && t.writtenOff == s.writtenOff && t.defaulted == s.defaulted && t.loanBase == s.loanBase
    && t.shopBase == s.shopBase
  }

  /** What one loan looks like after the block. */
  lemma LoanAfter(c: Config, s: State, t: State, now: nat, fees: nat, id: LoanId)
    requires Sound(s) && Liquidations(s) && TurnsTaken(c, s, t, {}, now, fees) && id in s.loans
    ensures id in t.loans && t.loans[id].who == s.loans[id].who && t.loans[id].package == s.loans[id].package
    ensures t.loans[id].total == s.loans[id].total && t.loans[id].available <= s.loans[id].available
    ensures id !in s.liquidating ==> t.loans[id].available > 0
    ensures id in t.liquidating <==> t.loans[id].status.Liquidating?
    ensures id !in s.liquidating ==>
      && Ltv(t.loans[id].available, t.loans[id].total, s.price).Ok?
      && (id in t.liquidating <==> Ltv(t.loans[id].available, t.loans[id].total, s.price).value >= c.terms.liquidation)
  {
    assert SoundLoan(s, id) && Turned(c, s, t, id, now);
    if id !in s.liquidating {
      TurnLaws(c.terms, s.packages[s.loans[id].package], s.loans[id], now, s.price);
      hide TakeTurn;
    }
  }

  lemma BlockKeepsLaws(c: Config, s: State, t: State, now: nat, fees: nat)
    requires c.WellFormed() && Laws(c, s) && BlockDone(c, s, t, now, fees)
    ensures Laws(c, t)
  {
    forall id | id in s.loans
      ensures t.loans[id].who == s.loans[id].who && SoundLoan(t, id)
      ensures id in t.liquidating <==> t.loans[id].status.Liquidating?
    {
      assert SoundLoan(s, id);
      LoanAfter(c, s, t, now, fees, id);
    }
    assert Sound(t) && Liquidations(t);
    SameIndex(s, t);
    hide Sound, Liquidations, Indexed, TakeTurn;
    assert Booked(c, t);
  }

  /** What a block does to one loan: nothing, if it was in liquidation. */
  ghost predicate Looked(c: Config, s: State, t: State, id: LoanId, now: nat)
    requires id in s.loans
  {
    && id in t.loans
    && if id in s.liquidating then t.loans[id] == s.loans[id] && id in t.liquidating
       else
         && s.loans[id].package in s.packages
         && Watched(c.terms, s.packages[s.loans[id].package], s.loans[id], t.loans[id], id in t.liquidating, now,
                    s.price)
  }

  ghost predicate CanTurn(c: Config, s: State, id: LoanId, now: nat)
  {
    && id in s.loans && s.loans[id].package in s.packages
    && Manageable(c.terms, s.packages[s.loans[id].package], s.loans[id], now, s.price)
  }

  /** What a block does to all loans, and with the collateral they pay as fees. */
  ghost predicate AllLooked(c: Config, s: State, t: State, now: nat)
  {
    && t.loans.Keys == s.loans.Keys && (forall id :: id in s.loans ==> Looked(c, s, t, id, now))
    && NoDuplicates(t.liquidating) && (forall id :: id in t.liquidating ==> id in s.loans)
    && t.totalCollateral <= s.totalCollateral
    && Sum(Available(t.loans)) + (s.totalCollateral - t.totalCollateral) == Sum(Available(s.loans))
    && Moves(s, t, c.collateral, c.shop, c.pool, s.totalCollateral - t.totalCollateral)
    && t.byAccount == s.byAccount && t.packages == s.packages && t.active == s.active
    && t.nextLoan == s.nextLoan && t.nextPackage == s.nextPackage && t.totalLoan == s.totalLoan
    && t.totalProfit == s.totalProfit
    && t.price == s.price && t.writtenOff == s.writtenOff && t.defaulted == s.defaulted && t.loanBase == s.loanBase
    && t.shopBase == s.shopBase
  }

  lemma TurnOfIs(c: Config, s: State, id: LoanId, now: nat)
    ensures TurnOf(c, s, id, now).Ok? <==> CanTurn(c, s, id, now)
  {
    if id in s.loans && s.loans[id].package in s.packages {
      TurnIsWatched(c.terms, s.packages[s.loans[id].package], s.loans[id], now, s.price);
    }
    hide TakeTurn, Manageable;
  }

  lemma BlockLooks(c: Config, s: State, t: State, now: nat, fees: nat)
    requires Liquidations(s) && BlockDone(c, s, t, now, fees)
    ensures AllLooked(c, s, t, now)
  {
    forall id | id in s.loans ensures Looked(c, s, t, id, now) {
      LooksAt(c, s, t, id, now, fees);
    }
    hide Turned, TurnOf, Looked, Available, Debts, Moves;
  }

  lemma LooksAt(c: Config, s: State, t: State, id: LoanId, now: nat, fees: nat)
    requires Liquidations(s) && TurnsTaken(c, s, t, {}, now, fees) && id in s.loans
    ensures Looked(c, s, t, id, now)
  {
    assert Turned(c, s, t, id, now);
    if id !in s.liquidating {
      TurnIsWatched(c.terms, s.packages[s.loans[id].package], s.loans[id], now, s.price);
      hide TakeTurn, Watched, Available, Debts;
    }
  }

  /** After a block every loan is being liquidated or stays below the liquidation ratio, and of
      the others none that was below the warning ratio is left expired. */
  lemma BlockIsSafe(c: Config, s: State, t: State, now: nat, id: LoanId)
    requires AllLooked(c, s, t, now) && id in s.loans
    ensures id in t.loans
    ensures id !in t.liquidating ==> Below(t.loans[id], t.price, c.terms.liquidation)
    ensures id !in s.liquidating && t.loans[id].dueExtend <= now ==>
      !Below(s.loans[id], s.price, c.terms.liquidation) || !Below(s.loans[id], s.price, c.terms.warning)
  {
    assert Looked(c, s, t, id, now);
    hide Below, FeeParts, RatioIs, HasRatio;
  }

  ghost predicate TurnDivides(c: Config, s: State, id: LoanId, now: nat)
  {
    && id in s.loans && s.loans[id].package in s.packages
    && Divisible(c.terms, s.packages[s.loans[id].package], s.loans[id], now, s.price)
  }

  /** With affordable packages and a positive price no turn divides by zero: if a block panics,
      some number did not fit its machine word. */
  lemma BlocksDivide(c: Config, s: State, id: LoanId, now: nat)
    requires Sound(s) && Secured(s) && AllAffordable(c.terms, s.packages) && s.price > 0 && id in s.loans
    ensures TurnDivides(c, s, id, now) && !TurnOf(c, s, id, now).DivisionByZero?
  {
    assert SoundLoan(s, id);
    NoDivisionByZero(c.terms, s.packages[s.loans[id].package], s.loans[id], now, s.price);
  }

  /** No block takes the last of a loan's collateral. */
  lemma BlockKeepsSecured(c: Config, s: State, t: State, now: nat)
    requires Secured(s) && AllLooked(c, s, t, now)
    ensures Secured(t)
  {
    forall id | id in t.loans ensures t.loans[id].available > 0 {
      assert Looked(c, s, t, id, now);
      hide Renewed, RatioIs, HasExpired;
    }
  }

  /** A loan whose collateral is worth more than 128 bits at the price, or nothing at all, stops every block
      that is to look at it: its ratio cannot be computed. */
  lemma StopsBlocks(c: Config, s: State, id: LoanId, now: nat)
    requires id in s.loans && !(0 < s.loans[id].available * s.price <= MAX_BALANCE)
    ensures !CanTurn(c, s, id, now)
  {
  }

  /** So may a loan that has just been granted, from the next block on. */
  lemma GrantedStopsBlocks(c: Config, s: State, t: State, who: AccountId, p: PackageId, collateral: nat, loan: nat,
                           now: nat)
    requires Laws(c, s) && Granted(c, s, who, p, collateral, loan, now)
    requires LentTo(c, s, t, who, p, collateral, loan, now)
    requires !(0 < t.loans[s.nextLoan].available * s.price <= MAX_BALANCE)
    ensures s.nextLoan !in t.liquidating
    ensures forall later :: !CanTurn(c, t, s.nextLoan, later)
  {
    assert s.nextLoan !in s.loans by { assert forall id :: id in s.loans ==> SoundLoan(s, id); }
    hide CanTurn, Granted, InterestIs, Priced, DuesAre, Funded;
    forall later ensures !CanTurn(c, t, s.nextLoan, later) { StopsBlocks(c, t, s.nextLoan, later); }
  }
}
