/** rio-loan: loans against collateral, watched block by block. */
module LoanPallet {
  import opened Primitives
  import opened Books
  import opened Ledger
  import opened LoanTerms
  import opened LoanModel
  import opened LoanBlocks
  import opened LoanCalls

  /** The module's storage, as the block executor would restore it. */
  datatype Storage = Storage(
    loans: map<LoanId, Loan>, byAccount: map<AccountId, seq<LoanId>>, packages: map<PackageId, Package>,
    active: map<PackageId, Package>, liquidating: seq<LoanId>, nextLoan: LoanId, nextPackage: PackageId,
    totalLoan: nat, totalCollateral: nat, totalProfit: nat, price: nat, paused: bool)

  class LoanModule {
    const c: Config
    const assets: Assets

    var loans: map<LoanId, Loan>
    var byAccount: map<AccountId, seq<LoanId>>
    var packages: map<PackageId, Package>
    var active: map<PackageId, Package>
    var liquidating: seq<LoanId>
    var nextLoan: LoanId
    var nextPackage: PackageId
    var totalLoan: nat
    var totalCollateral: nat
    var totalProfit: nat
    var price: nat
    var paused: bool
    ghost var writtenOff: nat
    ghost var defaulted: nat
    ghost var loanBase: nat
    ghost var shopBase: nat

    ghost function View(): State
      reads this, assets
    {
      State(assets.free, assets.issuance, loans, byAccount, packages, active, liquidating, nextLoan, nextPackage,
            totalLoan, totalCollateral, totalProfit, price, writtenOff, defaulted, loanBase, shopBase)
    }

    ghost predicate Setup()
      reads assets`symbols, assets`restricted, assets`permissions, assets`positive, assets`negative
    {
      assets.Settled() && assets.Usable(c.loan) && assets.Usable(c.collateral)
    }

    constructor (c: Config, assets: Assets, price: nat)
      requires c.WellFormed() && assets.Valid() && assets.Settled() && assets.Usable(c.loan)
      requires assets.Usable(c.collateral)
      ensures this.c == c && this.assets == assets && Setup() && assets.Valid() && Laws(c, View())
      ensures loans == map[] && this.price == price && !paused
      ensures loanBase == assets.Issued(c.loan) && shopBase == assets.Free(c.collateral, c.shop)
    {
      this.c, this.assets := c, assets;
      loans, byAccount, packages, active, liquidating := map[], map[], map[], map[], [];
      nextLoan, nextPackage, totalLoan, totalCollateral, totalProfit := 1, 1, 0, 0, 0;
      this.price, paused := price, false;
      writtenOff, defaulted, loanBase, shopBase := 0, 0, assets.Issued(c.loan), assets.Free(c.collateral, c.shop);
      new;
      assert Available(this.loans) == map[] && Debts(this.loans) == map[];
    }

    // ------------------------------------------------------------ ledger steps

    method Move(a: AssetId, from: AccountId, to: AccountId, amount: nat) returns (r: Outcome)
      requires assets.Valid() && assets.Settled()
      modifies assets`free
      ensures assets.Valid() && !r.Aborted?
      ensures assets.Usable(a) ==> (r.Done? <==> amount <= old(assets.Free(a, from)))
      ensures r.Done? ==> amount <= old(assets.Free(a, from)) && Moves(old(View()), View(), a, from, to, amount)
      ensures !r.Done? ==> assets.free == old(assets.free)
    {
      assert assets.SettledAt(a);
      r := assets.MakeTransfer(a, from, to, amount);
    }

    method Mint(a: AssetId, to: AccountId, amount: nat) returns (r: Outcome)
      requires assets.Valid() && assets.Settled() && assets.Usable(a)
      modifies assets`free, assets`issuance
      ensures assets.Valid() && !r.Aborted?
      ensures r.Done? <==> old(assets.Issued(a)) + amount <= MAX_BALANCE
      ensures r.Done? ==> Mints(old(View()), View(), a, to, amount)
      ensures !r.Done? ==> assets.free == old(assets.free) && assets.issuance == old(assets.issuance)
    {
      assets.Bounded(a, to);
      r := assets.MintFree(a, assets.root, to, amount);
    }

    method Burn(a: AssetId, from: AccountId, amount: nat) returns (r: Outcome)
      requires assets.Valid() && assets.Settled() && assets.Usable(a)
      modifies assets`free, assets`issuance
      ensures assets.Valid() && !r.Aborted?
      ensures r.Done? <==> amount <= old(assets.Free(a, from))
      ensures r.Done? ==> Burns(old(View()), View(), a, from, amount)
      ensures !r.Done? ==> assets.free == old(assets.free) && assets.issuance == old(assets.issuance)
    {
      assets.Bounded(a, from);
      r := assets.BurnFree(a, assets.root, from, amount);
    }

    /** The interest to the pool, the rest to the borrower; all of it or nothing. */
    method MintLoan(who: AccountId, amount: nat, interest: nat) returns (r: Outcome)
      requires Setup() && assets.Valid() && interest <= amount
      modifies assets`free, assets`issuance
      ensures assets.Valid() && !r.Aborted?
      ensures r.Done? <==> old(assets.Issued(c.loan)) + amount <= MAX_BALANCE
      ensures r.Done? ==> LoanMinted(c, old(View()), View(), who, amount, interest)
      ensures !r.Done? ==> SameLedger(old(View()), View())
    {
      ghost var s := View();
      hide Mints, Burns, LoanMinted, SameLedger;
      r := Mint(c.loan, c.pool, interest);
      if !r.Done? { LedgerKept(s, View()); return; }
      ghost var m := View();
      MintShows(s, m, c.loan, c.pool, interest);
      r := Mint(c.loan, who, amount - interest);
      if r.Done? {
        MintsAddUp(c, s, m, View(), who, amount, interest);
      } else {
        var reverted := Burn(c.loan, c.pool, interest);
        MintReverted(s, m, View(), c.loan, c.pool, interest);
      }
    }

    // ------------------------------------------------------------ packages

    method CreatePackage(terms: nat, hourlyRate: nat, min: nat) returns (r: Outcome)
      requires Laws(c, View())
      modifies this`packages, this`active, this`nextPackage
      ensures Laws(c, View())
      ensures r.Done? <==>
        !paused && terms > 0 && 0 < hourlyRate < INTEREST_RATE_PREC && min > 0 && old(nextPackage) < MAX_U64
      ensures r.Done? ==> packages == old(packages)[old(nextPackage) := Package(true, terms, min, hourlyRate)]
                          && active == old(active)[old(nextPackage) := Package(true, terms, min, hourlyRate)]
      ensures !r.Done? ==> View() == old(View())
      ensures Created(old(View()), View(), paused, Package(true, terms, min, hourlyRate), r)
    {
      ghost var s := View();
      if paused { return Failed("module is paused"); }
      if terms == 0 || hourlyRate == 0 || min == 0 { return Failed("zero is not allowed"); }
      if hourlyRate >= INTEREST_RATE_PREC { return Failed("invalid interest rate"); }
      if nextPackage >= MAX_U64 { return Aborted; }
      var id := nextPackage;
      nextPackage := nextPackage + 1;
      packages := packages[id := Package(true, terms, min, hourlyRate)];
      active := active[id := Package(true, terms, min, hourlyRate)];
      PackagesKeepLaws(s, View(), id);
      return Done;
    }

    lemma PackagesKeepLaws(s: State, t: State, id: PackageId)
      requires Laws(c, s) && id in t.packages && t.packages.Keys == s.packages.Keys + {id} && id < t.nextPackage
      requires forall p :: p in s.packages && p != id ==> t.packages[p] == s.packages[p]
      requires id in s.packages ==> (t.packages[id].LowRate() <==> s.packages[id].LowRate())
      requires forall p :: p in t.active ==> p in t.packages && t.packages[p] == t.active[p]
      requires t.free == s.free && t.issuance == s.issuance && t.loans == s.loans && t.byAccount == s.byAccount
      requires t.liquidating == s.liquidating && t.nextLoan == s.nextLoan && s.nextPackage <= t.nextPackage
      requires t.totalLoan == s.totalLoan && t.totalCollateral == s.totalCollateral
      requires t.writtenOff == s.writtenOff && t.defaulted == s.defaulted && t.loanBase == s.loanBase
      requires t.shopBase == s.shopBase
      ensures Laws(c, t)
    {
      LoanModel.SameIndex(s, t);
      forall x | x in t.loans ensures SoundLoan(t, x) { assert SoundLoan(s, x); }
    }

    method DisablePackage(id: PackageId) returns (r: Outcome)
      requires Laws(c, View())
      modifies this`packages, this`active
      ensures Laws(c, View()) && !r.Aborted?
      ensures r.Done? <==> !paused && id in old(packages)
      ensures r.Done? ==>
        packages == old(packages)[id := old(packages)[id].(active := false)] && active == old(active) - {id}
      ensures !r.Done? ==> View() == old(View())
      ensures Disabled(old(View()), View(), paused, id, r)
    {
      ghost var s := View();
      if paused { return Failed("module is paused"); }
      if id !in packages { return Failed("invalid package id"); }
      packages := packages[id := packages[id].(active := false)];
      active := active - {id};
      assert id < nextPackage;
      PackagesKeepLaws(s, View(), id);
      return Done;
    }

    // ------------------------------------------------------------ lending

    /** `apply`: collateral in, a loan out. */
    method Apply(who: AccountId, id: PackageId, collateral: nat, loan: nat, now: nat) returns (r: Outcome)
      requires c.WellFormed() && Setup() && assets.Valid() && Laws(c, View()) && who != c.shop
      modifies this`loans, this`byAccount, this`nextLoan, this`totalLoan, this`totalCollateral, this`totalProfit
      modifies assets`free, assets`issuance
      ensures !r.Aborted? ==> assets.Valid() && Laws(c, View())
      ensures r.Done? <==> !paused && Granted(c, old(View()), who, id, collateral, loan, now)
      ensures r.Failed? ==> Untouched(old(View()), View())
      ensures r.Done? ==> LentTo(c, old(View()), View(), who, id, collateral, loan, now)
      // whoever names the collateral is admitted within the limit, and a positive minimum makes everybody do so
      ensures r.Done? ==>
        var l := loans[old(nextLoan)];
        WithinLimit(c.terms, l.available, l.total, price) <==>
          collateral > 0 || RoundsWithin(c.terms, price, loan, l.available)
      ensures r.Done? && c.terms.minimumCollateral > 0 ==> collateral > 0
    {
      NothingDone(View());
      ghost var s := View();
      hide Laws, Lent, Untouched, CollateralLoan, Package.Interest, WithinLimit, RoundsWithin;
      ActivePackages(View());
      if paused { return Failed("module is paused"); }
      NothingAsked();
      if collateral == 0 && loan == 0 { return Failed("invalid combination of collateral & loan amount"); }
      if id !in active { return Failed("invalid package id"); }
      if c.terms.cap.Some? && totalLoan >= c.terms.cap.value { return Failed("reach loan limit"); }
      var q := CollateralLoan(c.terms, price, collateral, loan);
      if q.Fault? { return Aborted; }
      if q.Refused? { return Failed(q.reason); }
      if active[id].min > q.loan { return Failed("not reach min loan amount"); }
      if collateral < c.terms.minimumCollateral { return Failed("not reach min collateral amount"); }
      GrantedWhen(c, s, who, id, collateral, loan, now);
      hide Granted;
      var interest := active[id].Interest(q.loan);
      if interest.Overflow? { return Aborted; }
      if interest.value >= q.loan { return Failed("interest is too high"); }
      AdmittedRateIsLow(active[id], q.loan);
      r := Lend(who, id, active[id], q.collateral, q.loan, interest.value, now);
      if r.Done? {
        LentIs(c, s, View(), who, id, collateral, loan, now);
        GrantedWithinLimit(c, s, who, id, collateral, loan, now);
      }
    }

    lemma NothingAsked()
      ensures !CollateralLoan(c.terms, price, 0, 0).Quoted?
    {
    }

    lemma NothingDone(s: State)
      ensures Untouched(s, s)
    {
    }

    lemma ActivePackages(s: State)
      requires Laws(c, s)
      ensures forall p :: p in s.active ==> p in s.packages && s.packages[p] == s.active[p]
    {
    }

    /** Takes the collateral, allots the id, and pays out; if the loan cannot be minted the
        collateral goes back. */
    method Fund(who: AccountId, package: Package, collateral: nat, loan: nat, interest: nat, now: nat)
      returns (r: Outcome)
      requires c.WellFormed() && Setup() && assets.Valid() && who != c.shop && interest <= loan
      modifies this`nextLoan, assets`free, assets`issuance
      ensures !r.Aborted? ==> assets.Valid()
      ensures r.Done? <==>
        && collateral <= old(assets.Free(c.collateral, who)) && package.Dues(now).Ok? && old(nextLoan) < MAX_U64
        && old(assets.Issued(c.loan)) + loan <= MAX_BALANCE
      ensures r.Done? ==>
        nextLoan == old(nextLoan) + 1 && Funded(c, old(View()), View(), who, collateral, loan, interest)
      ensures r.Failed? ==> old(nextLoan) <= nextLoan && SameLedger(old(View()), View())
    {
      ghost var s := View();
      r := Move(c.collateral, who, c.shop, collateral);
      if !r.Done? { return; }
      ghost var m := View();
      FundSteps(s, m, who, collateral);
      hide Moves, SameLedger, LoanMinted, Funded, Package.Dues;
      if package.Dues(now).Overflow? || nextLoan >= MAX_U64 { return Aborted; }
      nextLoan := nextLoan + 1;
      r := PayOut(who, collateral, loan, interest, s);
    }

    method PayOut(who: AccountId, collateral: nat, loan: nat, interest: nat, ghost s: State) returns (r: Outcome)
      requires Setup() && assets.Valid() && who != c.shop && interest <= loan
      requires Moves(s, View(), c.collateral, who, c.shop, collateral)
      modifies assets`free, assets`issuance
      ensures assets.Valid() && !r.Aborted?
      ensures r.Done? <==> old(assets.Issued(c.loan)) + loan <= MAX_BALANCE
      ensures r.Done? ==> Funded(c, s, View(), who, collateral, loan, interest)
      ensures r.Failed? ==> SameLedger(s, View())
    {
      ghost var m := View();
      hide Moves, SameLedger, LoanMinted, Funded;
      r := MintLoan(who, loan, interest);
      if r.Done? {
        FundedLaw(s, m, View(), who, collateral, loan, interest);
      } else {
        GiveBack(who, collateral, s, m);
      }
    }

    method GiveBack(who: AccountId, collateral: nat, ghost s: State, ghost m: State)
      requires Setup() && assets.Valid() && who != c.shop
      requires Moves(s, m, c.collateral, who, c.shop, collateral) && SameLedger(m, View())
      modifies assets`free
      ensures assets.Valid() && SameLedger(s, View())
    {
      ghost var f := View();
      ShopHas(s, m, f, who, collateral);
      hide Moves, SameLedger;
      var reverted := Move(c.collateral, c.shop, who, collateral);
      Reverted(s, m, f, View(), who, collateral);
    }

    lemma FundSteps(s: State, m: State, who: AccountId, collateral: nat)
      requires c.WellFormed() && Moves(s, m, c.collateral, who, c.shop, collateral)
      ensures m.Issued(c.loan) == s.Issued(c.loan)
    {
    }

    lemma ShopHas(s: State, m: State, f: State, who: AccountId, collateral: nat)
      requires Moves(s, m, c.collateral, who, c.shop, collateral) && SameLedger(m, f) && who != c.shop
      ensures collateral <= Bal(f.free, c.collateral, c.shop)
    {
    }

    lemma FundedLaw(s: State, m: State, t: State, who: AccountId, collateral: nat, loan: nat, interest: nat)
      requires Moves(s, m, c.collateral, who, c.shop, collateral) && LoanMinted(c, m, t, who, loan, interest)
      ensures Funded(c, s, t, who, collateral, loan, interest)
    {
    }

    lemma Reverted(s: State, m: State, f: State, t: State, who: AccountId, collateral: nat)
      requires Moves(s, m, c.collateral, who, c.shop, collateral) && SameLedger(m, f)
      requires Moves(f, t, c.collateral, c.shop, who, collateral)
      ensures SameLedger(s, t)
    {
    }

    /** A request that passed the checks. */
    method Lend(who: AccountId, id: PackageId, package: Package, collateral: nat, loan: nat, interest: nat, now: nat)
      returns (r: Outcome)
      requires c.WellFormed() && Setup() && assets.Valid() && Laws(c, View()) && who != c.shop
      requires id in packages && packages[id].LowRate() && interest <= loan
      modifies this`loans, this`byAccount, this`nextLoan, this`totalLoan, this`totalCollateral, this`totalProfit
      modifies assets`free, assets`issuance
      ensures !r.Aborted? ==> assets.Valid() && Laws(c, View())
      ensures r.Done? <==>
        && collateral <= old(assets.Free(c.collateral, who)) && package.Dues(now).Ok?
        && old(assets.Issued(c.loan)) + loan <= MAX_BALANCE && old(totalProfit) + interest <= MAX_BALANCE
        && old(nextLoan) < MAX_U64
      ensures r.Failed? ==> Untouched(old(View()), View())
      ensures r.Done? ==> Lent(c, old(View()), View(), NewLoan(who, id, package, collateral, loan, now), interest)
    {
      ghost var s := View();
      hide Laws, Lent, Untouched, Funded, SameLedger;
      r := Fund(who, package, collateral, loan, interest, now);
      if r.Failed? { RefusedLaw(s, View()); }
      if !r.Done? { return; }
      if totalProfit + interest > MAX_BALANCE { return Aborted; }
      BookLoan(NewLoan(who, id, package, collateral, loan, now), interest, s);
    }

    method BookLoan(l: Loan, interest: nat, ghost s: State)
      requires c.WellFormed() && Laws(c, s) && l.who != c.shop && !l.status.Liquidating? && interest <= l.total
      requires l.package in s.packages && s.packages[l.package].LowRate()
      requires FundsOnly(s, View()) && Funded(c, s, View(), l.who, l.available, l.total, interest)
      modifies this`loans, this`byAccount, this`totalLoan, this`totalCollateral, this`totalProfit
      ensures Laws(c, View()) && Lent(c, s, View(), l, interest)
    {
      ghost var m := View();
      hide Laws, Lent, Funded;
      var id := nextLoan - 1;
      var mine := if l.who in byAccount then byAccount[l.who] else [];
      loans, byAccount := loans[id := l], byAccount[l.who := mine + [id]];
      totalLoan, totalCollateral := totalLoan + l.total, totalCollateral + l.available;
      totalProfit := totalProfit + interest;
      LentLaw(s, m, View(), l, interest);
      LentKeepsLaws(c, s, View(), l, interest);
    }

    /** Balances and issuance may differ, and one loan id is used up. */
    ghost predicate FundsOnly(s: State, t: State)
    {
      && t.nextLoan == s.nextLoan + 1
      && t.loans == s.loans && t.byAccount == s.byAccount && t.packages == s.packages && t.active == s.active
      && t.liquidating == s.liquidating && t.nextPackage == s.nextPackage
      && t.totalLoan == s.totalLoan && t.totalCollateral == s.totalCollateral && t.totalProfit == s.totalProfit
      && t.price == s.price && t.writtenOff == s.writtenOff && t.defaulted == s.defaulted && t.loanBase == s.loanBase
      && t.shopBase == s.shopBase
    }

    lemma RefusedLaw(s: State, t: State)
      requires Laws(c, s) && SameLedger(s, t) && s.nextLoan <= t.nextLoan
      requires t.loans == s.loans && t.byAccount == s.byAccount && t.packages == s.packages && t.active == s.active
      requires t.liquidating == s.liquidating && t.nextPackage == s.nextPackage && t.price == s.price
      requires t.totalLoan == s.totalLoan && t.totalCollateral == s.totalCollateral && t.totalProfit == s.totalProfit
      requires t.writtenOff == s.writtenOff && t.defaulted == s.defaulted && t.loanBase == s.loanBase
      requires t.shopBase == s.shopBase
      ensures Untouched(s, t) && Laws(c, t)
    {
      hide Laws, SameLedger;
      SameLedgerKeepsLaws(c, s, t);
    }

    lemma LentLaw(s: State, m: State, t: State, l: Loan, interest: nat)
      requires FundsOnly(s, m) && Funded(c, s, m, l.who, l.available, l.total, interest)
      requires t.free == m.free && t.issuance == m.issuance && t.nextLoan == m.nextLoan
      requires t.loans == m.loans[s.nextLoan := l] && t.byAccount == m.byAccount[l.who := m.Loans(l.who) + [s.nextLoan]]
      requires t.totalLoan == m.totalLoan + l.total && t.totalCollateral == m.totalCollateral + l.available
      requires t.totalProfit == m.totalProfit + interest
      requires t.packages == m.packages && t.active == m.active && t.liquidating == m.liquidating
      requires t.nextPackage == m.nextPackage
      requires t.price == m.price && t.writtenOff == m.writtenOff && t.defaulted == m.defaulted
      requires t.loanBase == m.loanBase && t.shopBase == m.shopBase
      ensures Lent(c, s, t, l, interest)
    {
    }

    /** `draw`: more out of a loan, as long as its credit lasts. */
    method Draw(who: AccountId, id: LoanId, amount: nat) returns (r: Outcome)
      requires c.WellFormed() && Setup() && assets.Valid() && Laws(c, View())
      modifies this`loans, this`totalLoan, this`totalProfit, assets`free, assets`issuance
      ensures !r.Aborted? ==> assets.Valid() && Laws(c, View())
      ensures r.Done? <==> !paused && Drawable(c, old(View()), who, id, amount)
      ensures r.Failed? ==> Untouched(old(View()), View())
      ensures r.Done? ==> DrawnFrom(c, old(View()), View(), id, amount)
      // the ratio stays within the limit, at the price of the draw
      ensures r.Done? ==> WithinLimit(c.terms, old(loans)[id].available, old(loans)[id].total + amount, price)
    {
      NothingDone(View());
      hide Laws, Drawn, Untouched, InCredit, Drawable, WithinLimit, InterestIs;
      var interest;
      r, interest := CheckDraw(who, id, amount);
      if !r.Done? { NotInCredit(View(), who, id, amount); }
      if r.Done? { r := DrawInterest(id, amount, interest); }
    }

    lemma NotInCredit(s: State, who: AccountId, id: LoanId, amount: nat)
      ensures Drawable(c, s, who, id, amount) ==> InCredit(c, s, who, id, amount)
    {
    }

    method CheckDraw(who: AccountId, id: LoanId, amount: nat) returns (r: Outcome, interest: nat)
      requires Laws(c, View())
      ensures r.Done? <==> !paused && InCredit(c, View(), who, id, amount)
      ensures r.Done? ==> id in loans && interest <= amount && loans[id].package in packages
      ensures r.Done? ==> InterestIs(packages[loans[id].package], amount, interest)
      ensures r.Done? ==> (Drawable(c, View(), who, id, amount) <==>
                assets.Issued(c.loan) + amount <= MAX_BALANCE && totalProfit + interest <= MAX_BALANCE)
      ensures r.Done? ==> WithinLimit(c.terms, loans[id].available, loans[id].total + amount, price)
    {
      LoanPackages(View());
      hide Laws, Credit, WithinLimit, Package.Interest, Package.LowRate, InterestIs;
      if paused { return Failed("module is paused"), 0; }
      if id !in loans { return Failed("invalid loan id"), 0; }
      var l := loans[id];
      if l.who != who { return Failed("can't draw from others loan"), 0; }
      var credit := Credit(c.terms, price, l);
      CreditIsLargest(c.terms, price, l, amount);
      if !credit.Ok? { return Aborted, 0; }
      if amount > credit.value { return Failed("short of available credit"), 0; }
      DrawKeepsLimit(c.terms, price, l, amount);
      var i := packages[l.package].Interest(amount);
      InterestExact(packages[l.package], amount);
      if i.Overflow? { return Aborted, 0; }
      InterestBelow(packages[l.package], amount);
      return Done, i.value;
    }

    lemma LoanPackages(s: State)
      requires Laws(c, s)
      ensures forall id :: id in s.loans ==>
        s.loans[id].package in s.packages && s.packages[s.loans[id].package].LowRate()
    {
      assert forall id :: id in s.loans ==> SoundLoan(s, id);
    }

    method DrawInterest(id: LoanId, amount: nat, interest: nat) returns (r: Outcome)
      requires c.WellFormed() && Setup() && assets.Valid() && Laws(c, View()) && id in loans && interest <= amount
      modifies this`loans, this`totalLoan, this`totalProfit, assets`free, assets`issuance
      ensures !r.Aborted? ==> assets.Valid() && Laws(c, View())
      ensures r.Done? <==>
        old(assets.Issued(c.loan)) + amount <= MAX_BALANCE && old(totalProfit) + interest <= MAX_BALANCE
      ensures r.Failed? ==> Untouched(old(View()), View())
      ensures r.Done? ==>
        totalProfit == old(totalProfit) + interest && Drawn(c, old(View()), View(), id, amount, interest)
    {
      ghost var s := View();
      hide Laws, Drawn, Untouched, LoanMinted, SameLedger;
      r := MintLoan(loans[id].who, amount, interest);
      if !r.Done? { RefusedLaw(s, View()); return; }
      if totalProfit + interest > MAX_BALANCE { return Aborted; }
      ghost var m := View();
      loans := loans[id := loans[id].(total := loans[id].total + amount)];
      totalLoan, totalProfit := totalLoan + amount, totalProfit + interest;
      DrawnLaw(s, m, View(), id, amount, interest);
      DrawnKeepsLaws(c, s, View(), id, amount, interest);
    }

    lemma DrawnLaw(s: State, m: State, t: State, id: LoanId, amount: nat, interest: nat)
      requires id in s.loans && LedgerOnly(s, m) && LoanMinted(c, s, m, s.loans[id].who, amount, interest)
      requires t.free == m.free && t.issuance == m.issuance && t.nextLoan == m.nextLoan && t.byAccount == m.byAccount
      requires t.loans == m.loans[id := m.loans[id].(total := m.loans[id].total + amount)]
      requires t.totalLoan == m.totalLoan + amount && t.totalProfit == m.totalProfit + interest
      requires t.totalCollateral == m.totalCollateral
      requires t.packages == m.packages && t.active == m.active && t.liquidating == m.liquidating
      requires t.nextPackage == m.nextPackage
      requires t.price == m.price && t.writtenOff == m.writtenOff && t.defaulted == m.defaulted
      requires t.loanBase == m.loanBase && t.shopBase == m.shopBase
      ensures Drawn(c, s, t, id, amount, interest)
    {
    }

    /** `repay`: the debt for the collateral. */
    method Repay(who: AccountId, id: LoanId) returns (r: Outcome)
      requires c.WellFormed() && Setup() && assets.Valid() && Laws(c, View()) && who != c.shop
      modifies this`loans, this`byAccount, this`totalLoan, this`totalCollateral, assets`free, assets`issuance
      ensures assets.Valid() && Laws(c, View()) && !r.Aborted?
      ensures r.Done? <==> !paused && id in old(loans) && old(loans)[id].who == who && id !in liquidating
                           && old(loans)[id].total <= old(assets.Free(c.loan, who))
      ensures r.Failed? ==> View() == old(View())
      ensures r.Done? ==> Repaid(c, old(View()), View(), id)
    {
      hide Laws, Repaid;
      if paused { return Failed("module is paused"); }
      if id !in loans { return Failed("invalid loan id"); }
      if loans[id].who != who { return Failed("not owner of the loan"); }
      if assets.Free(c.loan, who) < loans[id].total { return Failed("not enough asset to repay"); }
      if id in liquidating { return Failed("loan is in liquidation"); }
      r := RepayChecked(id);
    }

    method RepayChecked(id: LoanId) returns (r: Outcome)
      requires c.WellFormed() && Setup() && assets.Valid() && Laws(c, View()) && id in loans && loans[id].who != c.shop
      requires id !in liquidating && loans[id].total <= assets.Free(c.loan, loans[id].who)
      modifies this`loans, this`byAccount, this`totalLoan, this`totalCollateral, assets`free, assets`issuance
      ensures assets.Valid() && Laws(c, View()) && r.Done? && Repaid(c, old(View()), View(), id)
    {
      ghost var s := View();
      LawParts(c, s);
      ShopCovers(c, s, id);                // the shop never lacks collateral
      hide Laws, Repaid, Settled, Booked;
      r := SettleDebt(loans[id].who, loans[id].total, loans[id].available);
      BookRepayment(id, s);
    }

    /** Debt to the shop, collateral back, debt burned: none of the three can fail. */
    method SettleDebt(who: AccountId, debt: nat, collateral: nat) returns (r: Outcome)
      requires c.WellFormed() && Setup() && assets.Valid() && who != c.shop
      requires debt <= assets.Free(c.loan, who) && collateral <= assets.Free(c.collateral, c.shop)
      modifies assets`free, assets`issuance
      ensures assets.Valid() && r.Done? && Settled(c, old(View()), View(), who, debt, collateral)
    {
      ghost var s := View();
      hide Moves, Burns, Settled;
      r := Move(c.loan, who, c.shop, debt);
      ghost var m := View();
      MoveShows(s, m, c.loan, who, c.shop, debt);
      r := Move(c.collateral, c.shop, who, collateral);
      ghost var n := View();
      MoveShows(m, n, c.collateral, c.shop, who, collateral);
      r := Burn(c.loan, c.shop, debt);
      SettledLaw(c, s, m, n, View(), who, debt, collateral);
    }

    method BookRepayment(id: LoanId, ghost s: State)
      requires c.WellFormed() && Laws(c, s) && LedgerOnly(s, View()) && id in loans && id !in liquidating
      requires loans[id].who != c.shop
      requires Settled(c, s, View(), loans[id].who, loans[id].total, loans[id].available)
      requires loans[id].total <= totalLoan && loans[id].available <= totalCollateral
      modifies this`loans, this`byAccount, this`totalLoan, this`totalCollateral
      ensures Laws(c, View()) && Repaid(c, s, View(), id)
    {
      ghost var m := View();
      hide Laws, Repaid, Settled;
      var l := loans[id];
      var mine := if l.who in byAccount then byAccount[l.who] else [];
      loans, byAccount := loans - {id}, byAccount[l.who := Without(mine, id)];
      totalLoan, totalCollateral := totalLoan - l.total, totalCollateral - l.available;
      RepaidLaw(s, m, View(), id);
      RepaidKeepsLaws(c, s, View(), id);
    }

    lemma RepaidLaw(s: State, m: State, t: State, id: LoanId)
      requires id in s.loans && LedgerOnly(s, m)
      requires Settled(c, s, m, s.loans[id].who, s.loans[id].total, s.loans[id].available)
      requires t.free == m.free && t.issuance == m.issuance && t.nextLoan == m.nextLoan
      requires t.loans == m.loans - {id}
      requires t.byAccount == m.byAccount[m.loans[id].who := Without(m.Loans(m.loans[id].who), id)]
      requires t.totalLoan == m.totalLoan - m.loans[id].total
      requires t.totalCollateral == m.totalCollateral - m.loans[id].available
      requires t.totalProfit == m.totalProfit
      requires t.packages == m.packages && t.active == m.active && t.liquidating == m.liquidating
      requires t.nextPackage == m.nextPackage
      requires t.price == m.price && t.writtenOff == m.writtenOff && t.defaulted == m.defaulted
      requires t.loanBase == m.loanBase && t.shopBase == m.shopBase
      ensures Repaid(c, s, t, id)
    {
    }

    /** `add_collateral`. */
    method AddCollateral(who: AccountId, id: LoanId, amount: nat) returns (r: Outcome)
      requires c.WellFormed() && Setup() && assets.Valid() && Laws(c, View()) && who != c.shop
      modifies this`loans, this`totalCollateral, assets`free
      ensures !r.Aborted? ==> assets.Valid() && Laws(c, View())
      ensures r.Done? <==> !paused && id in old(loans) && old(loans)[id].who == who
                           && amount <= old(assets.Free(c.collateral, who))
                           && old(loans)[id].original + amount <= MAX_BALANCE
      ensures r.Failed? ==> View() == old(View())
      ensures r.Done? ==> Topped(c, old(View()), View(), id, amount)
    {
      ghost var s := View();
      hide Laws, Topped, Moves;
      if paused { return Failed("module is paused"); }
      if id !in loans { return Failed("loan doesn't exists"); }
      if loans[id].who != who { return Failed("adding collateral to other's loan is not allowed"); }
      r := Move(c.collateral, who, c.shop, amount);
      if !r.Done? { return; }
      var l := loans[id];
      if l.original + amount > MAX_BALANCE { return Aborted; }
      ghost var m := View();
      loans := loans[id := l.(original := l.original + amount, available := l.available + amount)];
      totalCollateral := totalCollateral + amount;
      ToppedLaw(s, m, View(), id, amount);
      ToppedKeepsLaws(c, s, View(), id, amount);
    }

    lemma ToppedLaw(s: State, m: State, t: State, id: LoanId, amount: nat)
      requires id in s.loans && LedgerOnly(s, m) && Moves(s, m, c.collateral, s.loans[id].who, c.shop, amount)
      requires t.free == m.free && t.issuance == m.issuance && t.nextLoan == m.nextLoan && t.byAccount == m.byAccount
      requires var l := m.loans[id];
               t.loans == m.loans[id := l.(original := l.original + amount, available := l.available + amount)]
      requires t.totalLoan == m.totalLoan && t.totalProfit == m.totalProfit
      requires t.totalCollateral == m.totalCollateral + amount
      requires t.packages == m.packages && t.active == m.active && t.liquidating == m.liquidating
      requires t.nextPackage == m.nextPackage
      requires t.price == m.price && t.writtenOff == m.writtenOff && t.defaulted == m.defaulted
      requires t.loanBase == m.loanBase && t.shopBase == m.shopBase
      ensures Topped(c, s, t, id, amount)
    {
    }

    // ------------------------------------------------------------ liquidation

    /** `mark_liquidated`, called by the liquidation account once the collateral of a loan is sold.
        An auction below the debt panics. */
    method MarkLiquidated(id: LoanId, auction: nat) returns (r: Outcome)
      requires c.WellFormed() && Setup() && assets.Valid() && Laws(c, View())
      modifies this`loans, this`byAccount, this`liquidating, this`writtenOff, this`defaulted, assets`free
      ensures !r.Aborted? ==> assets.Valid() && Laws(c, View())
      ensures r.Done? <==> !paused && id in old(loans) && id in old(liquidating)
                           && old(loans)[id].total <= auction <= old(assets.Free(c.loan, c.liquidator))
                           && (auction - old(loans)[id].total) * c.terms.liquidationPenalty <= MAX_BALANCE
      ensures r.Failed? ==> View() == old(View())
      ensures r.Done? ==> LiquidatedFor(c, old(View()), View(), id, auction)
    {
      ghost var s := View();
      hide Laws, Liquidated, AuctionPaid;
      if paused { return Failed("module is paused"); }
      if id !in loans { return Failed("loan doesn't exists"); }
      if id !in liquidating { return Failed("loan id not in liquidating"); }
      if assets.Free(c.loan, c.liquidator) < auction { return Failed("not enough asset to liquidate"); }
      r := PayAuction(loans[id].who, auction, loans[id].total);
      if r.Done? { BookLiquidation(id, auction, AuctionPenalty(c.terms, auction - loans[id].total), s); }
    }

    method PayAuction(who: AccountId, auction: nat, debt: nat) returns (r: Outcome)
      requires c.WellFormed() && Setup() && assets.Valid() && auction <= assets.Free(c.loan, c.liquidator)
      modifies assets`free
      ensures !r.Aborted? ==> assets.Valid()
      ensures r.Done? <==> debt <= auction && (auction - debt) * c.terms.liquidationPenalty <= MAX_BALANCE
      ensures r.Failed? ==> View() == old(View())
      ensures r.Done? ==>
        AuctionPaid(c, old(View()), View(), who, auction, debt, AuctionPenalty(c.terms, auction - debt))
    {
      ghost var s := View();
      r := Move(c.loan, c.liquidator, c.shop, debt);
      if !r.Done? { return; }
      if auction < debt { return Aborted; }          // the final unwrap panics
      var leftover := auction - debt;
      ghost var m := View();
      PaidToShop(s, m, auction, debt);
      hide Moves, AuctionPenalty;
      if leftover > 0 {
        if leftover * c.terms.liquidationPenalty > MAX_BALANCE { return Aborted; }
        PayRest(who, leftover);
      } else {
        NoRest(m, who);
      }
      PaidOut(s, m, View(), who, auction, debt, AuctionPenalty(c.terms, leftover));
    }

    method PayRest(who: AccountId, leftover: nat)
      requires c.WellFormed() && Setup() && assets.Valid() && leftover <= assets.Free(c.loan, c.liquidator)
      modifies assets`free
      ensures assets.Valid() && RestPaid(old(View()), View(), who, leftover, AuctionPenalty(c.terms, leftover))
    {
      hide AuctionPenalty;
      var penalty := AuctionPenalty(c.terms, leftover);
      var r := Move(c.loan, c.liquidator, c.pool, penalty);
      r := Move(c.loan, c.liquidator, who, leftover - penalty);
    }

    ghost predicate RestPaid(s: State, t: State, who: AccountId, leftover: nat, penalty: nat)
    {
      && (forall b, u :: Bal(t.free, b, u) == Bal(s.free, b, u)
            - (if b == c.loan && u == c.liquidator then leftover else 0)
            + (if b == c.loan && u == c.pool then penalty else 0)
            + (if b == c.loan && u == who then leftover - penalty else 0))
      && (forall b :: t.Issued(b) == s.Issued(b))
    }

    lemma NoRest(m: State, who: AccountId)
      requires c.terms.liquidationPenalty <= LTV_PREC
      ensures RestPaid(m, m, who, 0, AuctionPenalty(c.terms, 0))
    {
    }

    lemma PaidToShop(s: State, m: State, auction: nat, debt: nat)
      requires c.WellFormed() && Moves(s, m, c.loan, c.liquidator, c.shop, debt)
      requires debt <= auction <= Bal(s.free, c.loan, c.liquidator)
      ensures auction - debt <= Bal(m.free, c.loan, c.liquidator)
    {
    }

    lemma PaidOut(s: State, m: State, t: State, who: AccountId, auction: nat, debt: nat, penalty: nat)
      requires debt <= auction && penalty <= auction - debt
      requires Moves(s, m, c.loan, c.liquidator, c.shop, debt) && RestPaid(m, t, who, auction - debt, penalty)
      ensures AuctionPaid(c, s, t, who, auction, debt, penalty)
    {
    }

    method BookLiquidation(id: LoanId, auction: nat, penalty: nat, ghost s: State)
      requires c.WellFormed() && Laws(c, s) && LedgerOnly(s, View()) && id in loans && id in liquidating
      requires AuctionPaid(c, s, View(), loans[id].who, auction, loans[id].total, penalty)
      modifies this`loans, this`byAccount, this`liquidating, this`writtenOff, this`defaulted
      ensures Laws(c, View()) && Liquidated(c, s, View(), id, auction, penalty)
    {
      ghost var m := View();
      hide Laws, Liquidated, AuctionPaid;
      StrikeOff(id);
      LiquidatedLaw(s, m, View(), id, auction, penalty);
      LiquidatedKeepsLaws(c, s, View(), id, auction, penalty);
    }

    method StrikeOff(id: LoanId)
      requires id in loans
      modifies this`loans, this`byAccount, this`liquidating, this`writtenOff, this`defaulted
      ensures loans == old(loans) - {id} && liquidating == Without(old(liquidating), id)
      ensures byAccount == old(byAccount)[old(loans)[id].who := Without(old(View()).Loans(old(loans)[id].who), id)]
      ensures writtenOff == old(writtenOff) + old(loans)[id].available
      ensures defaulted == old(defaulted) + old(loans)[id].total
    {
      var l := loans[id];
      var mine := if l.who in byAccount then byAccount[l.who] else [];
      loans, byAccount := loans - {id}, byAccount[l.who := Without(mine, id)];
      liquidating := Without(liquidating, id);
      writtenOff, defaulted := writtenOff + l.available, defaulted + l.total;
    }

    lemma LiquidatedLaw(s: State, m: State, t: State, id: LoanId, auction: nat, penalty: nat)
      requires id in s.loans && LedgerOnly(s, m)
      requires AuctionPaid(c, s, m, s.loans[id].who, auction, s.loans[id].total, penalty)
      requires t.free == m.free && t.issuance == m.issuance && t.nextLoan == m.nextLoan
      requires t.loans == m.loans - {id}
      requires t.byAccount == m.byAccount[m.loans[id].who := Without(m.Loans(m.loans[id].who), id)]
      requires t.liquidating == Without(m.liquidating, id)
      requires t.writtenOff == m.writtenOff + m.loans[id].available && t.defaulted == m.defaulted + m.loans[id].total
      requires t.totalLoan == m.totalLoan && t.totalCollateral == m.totalCollateral && t.totalProfit == m.totalProfit
      requires t.packages == m.packages && t.active == m.active && t.nextPackage == m.nextPackage
      requires t.price == m.price && t.loanBase == m.loanBase && t.shopBase == m.shopBase
      ensures Liquidated(c, s, t, id, auction, penalty)
    {
      StillPaid(c, s, m, t, s.loans[id].who, auction, s.loans[id].total, penalty);
      hide AuctionPaid, Without;
    }

    // ------------------------------------------------------------ every block

    /** One loan's turn at the start of a block. */
    method TakeLoansTurn(id: LoanId, now: nat, ghost s: State, todo: set<LoanId>, fees: nat)
      returns (r: Outcome, fee: nat)
      requires Laws(c, s) && TurnsTaken(c, s, View(), todo, now, fees) && OnlyLoans(s, View()) && id in todo
      requires todo <= loans.Keys
      modifies this`loans, this`liquidating
      ensures !r.Failed? && OnlyLoans(s, View()) && loans.Keys == old(loans).Keys
      ensures r.Done? ==> TurnsTaken(c, s, View(), todo - {id}, now, fees + fee)
      ensures r.Aborted? <==> id !in s.liquidating && !CanTurn(c, s, id, now)
    {
      ghost var m := View();
      AsBefore(s, m, todo, now, fees, id);
      TurnIs(s, m, id, now);
      TurnOfIs(c, s, id, now);
      hide Laws, TurnsTaken, TakeTurn, TurnOf, CanTurn;
      fee := 0;
      if id in liquidating {
        PassOver(c, s, m, todo, now, fees, id);
        return Done, 0;
      }
      var turn := TakeTurn(c.terms, packages[loans[id].package], loans[id], now, price);
      if !turn.Ok? { return Aborted, 0; }
      BookTurn(id, turn.value);
      OneTurn(c, s, m, View(), todo, now, fees, id, turn.value);
      return Done, turn.value.fee;
    }

    method BookTurn(id: LoanId, turn: Turn)
      requires id in loans
      modifies this`loans, this`liquidating
      ensures loans == old(loans)[id := turn.loan] && loans.Keys == old(loans).Keys
      ensures liquidating == if turn.seized then old(liquidating) + [id] else old(liquidating)
      ensures OnlyLoans(old(View()), View())
    {
      loans := loans[id := turn.loan];
      if turn.seized { liquidating := liquidating + [id]; }
    }

    lemma TurnIs(s: State, m: State, id: LoanId, now: nat)
      requires id in s.loans && id in m.loans && m.loans[id] == s.loans[id] && s.loans[id].package in s.packages
      requires OnlyLoans(s, m)
      ensures TurnOf(c, s, id, now) == TakeTurn(c.terms, m.packages[m.loans[id].package], m.loans[id], now, m.price)
    {
      hide TakeTurn;
    }

    lemma AsBefore(s: State, m: State, todo: set<LoanId>, now: nat, fees: nat, id: LoanId)
      requires Laws(c, s) && TurnsTaken(c, s, m, todo, now, fees) && id in todo && todo <= m.loans.Keys
      ensures m.loans.Keys == s.loans.Keys && m.loans[id] == s.loans[id] && s.loans[id].package in s.packages
      ensures id in m.liquidating <==> id in s.liquidating
    {
      assert SoundLoan(s, id);
    }

    method TakeTurns(now: nat) returns (r: Outcome, fees: nat)
      requires Laws(c, View())
      modifies this`loans, this`liquidating
      ensures !r.Failed?
      ensures r.Aborted? <==>
        exists id :: id in old(loans) && id !in old(liquidating) && !CanTurn(c, old(View()), id, now)
      ensures r.Done? ==> TurnsTaken(c, old(View()), View(), {}, now, fees) && OnlyLoans(old(View()), View())
    {
      ghost var s := View();
      fees := 0;
      var todo := loans.Keys;
      assert Liquidations(s);
      NoTurns(c, s, now);
      hide Laws, TurnsTaken, CanTurn, OnlyLoans;
      while todo != {}
        invariant todo <= loans.Keys && loans.Keys == s.loans.Keys && TurnsTaken(c, s, View(), todo, now, fees)
        invariant OnlyLoans(s, View())
        invariant forall id :: id in s.loans && id !in todo && id !in s.liquidating ==> CanTurn(c, s, id, now)
        decreases todo
      {
        var id :| id in todo;
        var fee;
        r, fee := TakeLoansTurn(id, now, s, todo, fees);
        if r.Aborted? { return; }
        fees := fees + fee;
        todo := todo - {id};
      }
      assert todo == {};
      return Done, fees;
    }

    /** The start of a block: every loan is looked at, and the fees of the expired ones go to the pool. */
    method OnEachBlock(now: nat) returns (r: Outcome)
      requires c.WellFormed() && Setup() && assets.Valid() && Laws(c, View())
      modifies this`loans, this`liquidating, this`totalCollateral, assets`free
      ensures !r.Failed? && (!r.Aborted? ==> assets.Valid() && Laws(c, View()))
      ensures BlockEnds(c, old(View()), View(), paused, now, r)
    {
      ghost var s := View();
      if paused { return Done; }
      hide Laws, TurnsTaken, CanTurn, AllLooked;
      var fees;
      r, fees := TakeTurns(now);
      if !r.Done? { return; }
      CollectFees(fees, now, s);
    }

    /** The transfer of the fees never fails, and the total does not run below zero. */
    method CollectFees(fees: nat, now: nat, ghost s: State)
      requires c.WellFormed() && Setup() && assets.Valid() && Laws(c, s)
      requires TurnsTaken(c, s, View(), {}, now, fees) && OnlyLoans(s, View())
      modifies this`totalCollateral, assets`free
      ensures assets.Valid() && Laws(c, View()) && AllLooked(c, s, View(), now)
    {
      ghost var m := View();
      FeesCovered(s, m, now, fees);
      hide Laws, TurnsTaken, Moves, BlockDone, AllLooked;
      MoveFees(fees);
      BlockLaw(s, m, View(), now, fees);
      LawParts(c, s);
      hide Booked, Indexed, Liquidations, Sound;
      BlockLooks(c, s, View(), now, fees);
      BlockKeepsLaws(c, s, View(), now, fees);
    }

    method MoveFees(fees: nat)
      requires c.WellFormed() && Setup() && assets.Valid() && fees <= totalCollateral
      requires fees <= assets.Free(c.collateral, c.shop)
      modifies this`totalCollateral, assets`free
      ensures assets.Valid() && Moves(old(View()), View(), c.collateral, c.shop, c.pool, fees)
      ensures totalCollateral == old(totalCollateral) - fees
    {
      if fees > 0 {
        var r := Move(c.collateral, c.shop, c.pool, fees);
        totalCollateral := totalCollateral - fees;
      }
    }

    lemma FeesCovered(s: State, m: State, now: nat, fees: nat)
      requires Booked(c, s) && TurnsTaken(c, s, m, {}, now, fees) && OnlyLoans(s, m)
      ensures fees <= m.totalCollateral && fees <= Bal(m.free, c.collateral, c.shop)
    {
    }

    lemma BlockLaw(s: State, m: State, t: State, now: nat, fees: nat)
      requires TurnsTaken(c, s, m, {}, now, fees) && OnlyLoans(s, m) && Moves(m, t, c.collateral, c.shop, c.pool, fees)
      requires t.totalCollateral == m.totalCollateral - fees && t.loans == m.loans && t.liquidating == m.liquidating
      requires t.byAccount == m.byAccount && t.packages == m.packages && t.active == m.active
      requires t.nextLoan == m.nextLoan && t.nextPackage == m.nextPackage && t.totalLoan == m.totalLoan
      requires t.totalProfit == m.totalProfit
      requires t.price == m.price && t.writtenOff == m.writtenOff && t.defaulted == m.defaulted
      requires t.loanBase == m.loanBase && t.shopBase == m.shopBase
      ensures BlockDone(c, s, t, now, fees)
    {
      hide TurnOf, SeizedNow, Available, Debts, NoDuplicates;
    }

    // ------------------------------------------------------------ runs

    /** A plain transfer of users, which the module does not hear of. */
    method Transfer(a: AssetId, from: AccountId, to: AccountId, amount: nat) returns (r: Outcome)
      requires c.WellFormed() && Setup() && assets.Valid() && Laws(c, View()) && from != c.shop
      modifies assets`free, this`shopBase
      ensures assets.Valid() && Laws(c, View()) && !r.Aborted?
      ensures r.Done? ==> Moves(old(View()), View(), a, from, to, amount)
      ensures !r.Done? ==> View() == old(View())
      ensures shopBase == old(shopBase) + if r.Done? && a == c.collateral && to == c.shop then amount else 0
    {
      ghost var s := View();
      hide Laws, Moves;
      r := Move(a, from, to, amount);
      if r.Done? {
        if a == c.collateral && to == c.shop { shopBase := shopBase + amount; }
        SameMove(s, assets.free, assets.issuance, View(), a, from, to, amount);
        MoveKeepsLaws(c, s, View(), a, from, to, amount);
      }
    }

    lemma SameMove(s: State, free: Book, issuance: map<AssetId, nat>, t: State, a: AssetId, from: AccountId,
                   to: AccountId, amount: nat)
      requires Moves(s, s.(free := free, issuance := issuance), a, from, to, amount) && t.free == free
      requires t.issuance == issuance
      ensures Moves(s, t, a, from, to, amount)
    {
    }

    method SetPrice(price: nat)
      requires Laws(c, View())
      modifies this`price
      ensures Laws(c, View()) && this.price == price
      ensures View() == old(View()).(price := price)
    {
      ghost var s := View();
      this.price := price;
      SameBooks(s, View());
    }

    lemma SameBooks(s: State, t: State)
      requires Laws(c, s) && t == s.(price := t.price)
      ensures Laws(c, t)
    {
      SameLedgerKeepsLaws(c, s, t);
    }

    ghost function Now(): Moment
      reads this, assets
    {
      Moment(View(), paused)
    }

    /** One call, without the roll-back of a panic. */
    method Execute(call: Call) returns (r: Outcome)
      requires c.WellFormed() && Setup() && assets.Valid() && Laws(c, View()) && !call.SpendsFrom(c.shop)
      modifies this, assets`free, assets`issuance
      ensures !r.Aborted? ==> assets.Valid() && Laws(c, View())
      ensures Effect(c, call, old(View()), View(), old(paused), r)
      ensures paused == if call.SetPaused? then call.on else old(paused)
      ensures !r.Aborted? && call.Careful(c) && AllAffordable(c.terms, old(packages)) && old(price) > 0 ==>
        AllAffordable(c.terms, packages) && price > 0
      ensures !r.Aborted? ==> loanBase == old(loanBase) && shopBase == old(shopBase) + Gift(c, call, r)
    {
      hide Laws, Moves, BlockEnds, BlockDone, TurnOf, Affordable, AllAffordable, Created, Disabled;
      match call {
        case CreatePackage(terms, hourlyRate, min) =>
          r := CreatePackage(terms, hourlyRate, min);
          if r.Done? && call.Careful(c) { OneMoreAffordable(old(packages), packages, old(nextPackage)); }
        case DisablePackage(id) =>
          r := DisablePackage(id);
          if r.Done? { StillAffordable(old(packages), packages, id); }
        case SetPrice(p) =>
          SetPrice(p);
          r := Done;
        case SetPaused(on) =>
          paused := on;
          r := Done;
        case Transfer(a, from, to, amount) => r := Transfer(a, from, to, amount);
        case Block(now) =>
          r := OnEachBlock(now);
        case _ => r := ExecuteLoan(call);
      }
    }

    /** The calls about a single loan. */
    method ExecuteLoan(call: Call) returns (r: Outcome)
      requires c.WellFormed() && Setup() && assets.Valid() && Laws(c, View()) && !call.SpendsFrom(c.shop)
      requires call.Apply? || call.Draw? || call.Repay? || call.AddCollateral? || call.MarkLiquidated?
      modifies this`loans, this`byAccount, this`liquidating, this`nextLoan, this`totalLoan, this`totalCollateral
      modifies this`totalProfit
      modifies this`writtenOff, this`defaulted, assets`free, assets`issuance
      ensures !r.Aborted? ==> assets.Valid() && Laws(c, View())
      ensures Effect(c, call, old(View()), View(), paused, r)
    {
      hide Laws, Granted, LentTo, Untouched, Drawable, DrawnFrom, Repaid, Topped, LiquidatedFor;
      match call
      case Apply(who, id, collateral, loan, now) => r := Apply(who, id, collateral, loan, now);
      case Draw(who, id, amount) => r := Draw(who, id, amount);
      case Repay(who, id) => r := Repay(who, id);
      case AddCollateral(who, id, amount) => r := AddCollateral(who, id, amount);
      case MarkLiquidated(id, auction) => r := MarkLiquidated(id, auction);
    }

    lemma OneMoreAffordable(before: map<PackageId, Package>, after: map<PackageId, Package>, id: PackageId)
      requires id in after && after == before[id := after[id]] && Affordable(c.terms, after[id])
      ensures AllAffordable(c.terms, before) ==> AllAffordable(c.terms, after)
    {
      hide Affordable;
    }

    lemma StillAffordable(before: map<PackageId, Package>, after: map<PackageId, Package>, id: PackageId)
      requires id in before && after == before[id := before[id].(active := false)]
      ensures AllAffordable(c.terms, before) ==> AllAffordable(c.terms, after)
    {
      if AllAffordable(c.terms, before) {
        forall p | p in after ensures Affordable(c.terms, after[p]) {
          assert Affordable(c.terms, before[p]);
        }
      }
    }

    function Store(): (s: Storage)
      reads this
      ensures s.paused == paused && s.packages == packages && s.price == price
    {
      Storage(loans, byAccount, packages, active, liquidating, nextLoan, nextPackage,
              totalLoan, totalCollateral, totalProfit, price, paused)
    }

    /** Throws away what was written since the given storage was current. */
    method RollBack(s: Storage, ghost g: State, free: Book, issuance: map<AssetId, nat>)
      modifies this, assets`free, assets`issuance
      ensures View() == Restored(s, g, free, issuance) && loanBase == g.loanBase && shopBase == g.shopBase
      ensures packages == s.packages && price == s.price
      ensures paused == s.paused && assets.free == free && assets.issuance == issuance
    {
      RollBackLoans(s);
      RollBackTotals(s);
      writtenOff, defaulted, loanBase, shopBase := g.writtenOff, g.defaulted, g.loanBase, g.shopBase;
      assets.free, assets.issuance := free, issuance;
    }

    ghost function Restored(s: Storage, g: State, free: Book, issuance: map<AssetId, nat>): State
    {
      State(free, issuance, s.loans, s.byAccount, s.packages, s.active, s.liquidating, s.nextLoan, s.nextPackage,
            s.totalLoan, s.totalCollateral, s.totalProfit, s.price, g.writtenOff, g.defaulted, g.loanBase, g.shopBase)
    }

    lemma Restorable()
      ensures Restored(Store(), View(), assets.free, assets.issuance) == View()
      ensures View().loanBase == loanBase && View().shopBase == shopBase
    {
    }

    method RollBackLoans(s: Storage)
      modifies this`loans, this`byAccount, this`packages, this`active, this`liquidating
      ensures loans == s.loans && byAccount == s.byAccount && packages == s.packages && active == s.active
      ensures liquidating == s.liquidating
    {
      loans, byAccount, packages, active, liquidating := s.loans, s.byAccount, s.packages, s.active, s.liquidating;
    }

    method RollBackTotals(s: Storage)
      modifies this`nextLoan, this`nextPackage, this`totalLoan, this`totalCollateral, this`totalProfit, this`price
      modifies this`paused
      ensures nextLoan == s.nextLoan && nextPackage == s.nextPackage && totalLoan == s.totalLoan
      ensures totalCollateral == s.totalCollateral && totalProfit == s.totalProfit && price == s.price
      ensures paused == s.paused
    {
      nextLoan, nextPackage := s.nextLoan, s.nextPackage;
      totalLoan, totalCollateral, totalProfit := s.totalLoan, s.totalCollateral, s.totalProfit;
      price, paused := s.price, s.paused;
    }

    /** A dispatched call.  What a panic leaves behind is thrown away. */
    method Dispatch(call: Call) returns (r: Outcome)
      requires c.WellFormed() && Setup() && assets.Valid() && Laws(c, View()) && !call.SpendsFrom(c.shop)
      modifies this, assets`free, assets`issuance
      ensures assets.Valid() && Laws(c, View()) && Step(c, call, old(Now()), Now(), r)
      ensures r.Aborted? ==> View() == old(View()) && paused == old(paused)
      ensures call.Careful(c) && AllAffordable(c.terms, old(packages)) && old(price) > 0 ==>
        AllAffordable(c.terms, packages) && price > 0
      ensures loanBase == old(loanBase) && shopBase == old(shopBase) + Gift(c, call, r)
    {
      hide *;
      ghost var s := View();
      ghost var now := Now();
      NowIs();
      Restorable();
      var before := Store();
      var free, issuance := assets.free, assets.issuance;
      r := Execute(call);
      NowIs();
      if r.Aborted? {
        ghost var m := View();
        RollBack(before, s, free, issuance);
        assert assets.Valid();
        NowIs();
        SwitchNeverPanics(c, call, s, m, now.paused);
        PanicStep(c, call, now, m);
        PanicIsFree(call);
      } else {
        Executed(c, call, now, Now(), r);
      }
    }

    lemma PanicIsFree(call: Call)
      ensures Gift(c, call, Aborted) == 0
    {
    }

    lemma NowIs()
      ensures Now() == Moment(View(), paused)
    {
    }

    /** Any run, call by call: books and indexes agree throughout, each call does what it is to do, and after
        every block each loan is in liquidation or below its threshold.  If every package was
        affordable, every price positive and every loan had collateral, no loan's next turn can
        divide by zero, whenever the block comes; with a positive minimum every loan has. */
    method Run(calls: seq<Call>) returns (ghost trace: seq<Moment>, ghost ends: seq<Outcome>)
      requires c.WellFormed() && Setup() && assets.Valid() && Laws(c, View())
      requires forall i :: 0 <= i < |calls| ==> !calls[i].SpendsFrom(c.shop)
      modifies this, assets`free, assets`issuance
      ensures assets.Valid() && Laws(c, View()) && loanBase == old(loanBase) && shopBase >= old(shopBase)
      ensures |trace| == |calls| + 1 == |ends| + 1 && trace[0] == old(Now()) && trace[|calls|] == Now()
      ensures Follows(c, calls, trace, ends, |calls|) && SafeBlocks(c, calls, trace, ends)
      ensures c.terms.minimumCollateral > 0 && Secured(old(View())) ==> Secured(View())
      ensures Secured(View()) && AllAffordable(c.terms, old(packages)) && old(price) > 0 ==>
        (forall i :: 0 <= i < |calls| ==> calls[i].Careful(c)) ==>
        forall id, now :: id in loans ==> TurnDivides(c, View(), id, now)
    {
      ghost var careful := AllAffordable(c.terms, packages) && price > 0
                           && forall i :: 0 <= i < |calls| ==> calls[i].Careful(c);
      ghost var secured := c.terms.minimumCollateral > 0 && Secured(View());
      trace, ends := [Now()], [];
      assert Follows(c, calls, trace, ends, 0);
      hide Laws, AllAffordable, Step, Secured, Follows, SafeBlocks, Call.Careful, Call.SpendsFrom, Setup, Assets.Valid;
      for k := 0 to |calls|
        invariant assets.Valid() && Laws(c, View()) && loanBase == old(loanBase) && shopBase >= old(shopBase)
        invariant |trace| == k + 1 == |ends| + 1 && trace[0] == old(Now()) && trace[k] == Now()
        invariant Follows(c, calls, trace, ends, k)
        invariant secured ==> Secured(View())
        invariant careful ==> AllAffordable(c.terms, packages) && price > 0
      {
        var r := Dispatch(calls[k]);
        StepKeeps(c, calls[k], trace[k], Now(), r);
        FollowsOn(c, calls, trace, ends, k, Now(), r);
        trace, ends := trace + [Now()], ends + [r];
      }
      FollowingIsSafe(c, calls, trace, ends);
      if careful && Secured(View()) { NobodyDivides(View()); }
    }

    lemma NobodyDivides(s: State)
      requires Laws(c, s) && Secured(s) && AllAffordable(c.terms, s.packages) && s.price > 0
      ensures forall id, now :: id in s.loans ==> TurnDivides(c, s, id, now)
    {
      assert Sound(s);
      hide TurnDivides;
      forall id, now | id in s.loans ensures TurnDivides(c, s, id, now) { BlocksDivide(c, s, id, now); }
    }
  }
}
