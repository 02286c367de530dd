/** rio-loan seen as a value: its state together with the balances it works on, the laws of its
    books and indexes, and what each operation does to them. */
module LoanModel {
  import opened Primitives
  import opened Books
  import opened LoanTerms

  datatype Config = Config(
    terms: Terms,
    collateral: AssetId,
    loan: AssetId,
    shop: AccountId,          // keeps the collateral
    pool: AccountId,          // receives interest, fees and penalties
    liquidator: AccountId)
  {
    predicate WellFormed()
    {
      && collateral != loan && shop != pool && shop != liquidator && pool != liquidator
      && terms.liquidationPenalty <= LTV_PREC
    }
  }

  datatype State = State(
    free: Book,
    issuance: map<AssetId, nat>,
    loans: map<LoanId, Loan>,
    byAccount: map<AccountId, seq<LoanId>>,
    packages: map<PackageId, Package>,
    active: map<PackageId, Package>,
    liquidating: seq<LoanId>,
    nextLoan: LoanId,
    nextPackage: PackageId,
    totalLoan: nat,
    totalCollateral: nat,
    totalProfit: nat,
    price: nat,
    writtenOff: nat,          // collateral of loans that were liquidated
    defaulted: nat,           // and their debt
    loanBase: nat,            // issuance of the loan asset before the first loan
    shopBase: nat)            // collateral asset in the shop that no loan accounts for
  {
    function Loans(u: AccountId): seq<LoanId> { if u in byAccount then byAccount[u] else [] }

    function Issued(a: AssetId): nat { Get(issuance, a) }
  }

  ghost function Available(loans: map<LoanId, Loan>): map<LoanId, nat> { map id | id in loans :: loans[id].available }

  ghost function Debts(loans: map<LoanId, Loan>): map<LoanId, nat> { map id | id in loans :: loans[id].total }

  ghost predicate NoDuplicates(s: seq<LoanId>) { forall i, j :: 0 <= i < j < |s| ==> s[i] != s[j] }

  /** A list with an id filtered out. */
  function Without(s: seq<LoanId>, id: LoanId): seq<LoanId>
  {
    if s == [] then []
    else Without(s[..|s| - 1], id) + if s[|s| - 1] == id then [] else [s[|s| - 1]]
  }

  lemma {:induction false} WithoutHolds(s: seq<LoanId>, id: LoanId)
    ensures forall x :: x in Without(s, id) <==> x in s && x != id
    ensures NoDuplicates(s) ==> NoDuplicates(Without(s, id))
  {
    if s != [] {
      var n := |s| - 1;
      WithoutHolds(s[..n], id);
      assert s == s[..n] + [s[n]];
      if NoDuplicates(s) && s[n] != id {
        var front := Without(s[..n], id);
        forall i | 0 <= i < |front| ensures front[i] != s[n] { assert front[i] in s[..n]; }
      }
    }
  }

  lemma PushHolds(s: seq<LoanId>, id: LoanId)
    requires NoDuplicates(s) && id !in s
    ensures NoDuplicates(s + [id]) && forall x :: x in s + [id] <==> x in s || x == id
  {
  }

  // ---------------------------------------------------------------- the laws

  /** The running totals agree with the ledger. */
  ghost predicate Booked(c: Config, s: State)
  {
    && s.Issued(c.loan) == s.loanBase + s.totalLoan
    && Bal(s.free, c.collateral, c.shop) == s.shopBase + s.totalCollateral
    && s.totalCollateral == Sum(Available(s.loans)) + s.writtenOff
    && s.totalLoan == Sum(Debts(s.loans)) + s.defaulted
  }

  /** The lists by account are exactly the inverse of the loans. */
  ghost predicate Indexed(s: State)
  {
    && (forall u, id :: id in s.Loans(u) <==> id in s.loans && s.loans[id].who == u)
    && (forall u :: NoDuplicates(s.Loans(u)))
  }

  /** The liquidation list names exactly the loans with that status, each once. */
  ghost predicate Liquidations(s: State)
  {
    && NoDuplicates(s.liquidating)
    && (forall id :: id in s.liquidating <==> id in s.loans && s.loans[id].status.Liquidating?)
  }

  /** Every loan has a package whose interest is below the amount. */
  ghost predicate SoundLoan(s: State, id: LoanId)
    requires id in s.loans
  {
    var l := s.loans[id];
    id < s.nextLoan && l.package in s.packages && s.packages[l.package].LowRate()
  }

  ghost predicate Sound(s: State)
  {
    && (forall id :: id in s.loans ==> SoundLoan(s, id))
    && (forall p :: p in s.packages ==> p < s.nextPackage)
    && (forall p :: p in s.active ==> p in s.packages && s.packages[p] == s.active[p])
  }

  ghost predicate Laws(c: Config, s: State) { Booked(c, s) && Indexed(s) && Liquidations(s) && Sound(s) }

  /** Every loan has collateral. */
  ghost predicate Secured(s: State) { forall id :: id in s.loans ==> s.loans[id].available > 0 }

  lemma StillPaid(c: Config, s: State, m: State, t: State, who: AccountId, auction: nat, debt: nat, penalty: nat)
    requires AuctionPaid(c, s, m, who, auction, debt, penalty) && t.free == m.free && t.issuance == m.issuance
    ensures AuctionPaid(c, s, t, who, auction, debt, penalty)
  {
  }

  lemma LawParts(c: Config, s: State)
    ensures Laws(c, s) <==> Booked(c, s) && Indexed(s) && Liquidations(s) && Sound(s)
  {
    hide Booked, Indexed, Liquidations, Sound;
  }

  /** Every package is such that its expiry fees can be paid. */
  ghost predicate AllAffordable(t: Terms, packages: map<PackageId, Package>)
  {
    forall p :: p in packages ==> Affordable(t, packages[p])
  }

  /** One loan replaced or added, or one removed: both sums follow. */
  lemma LoanSet(loans: map<LoanId, Loan>, id: LoanId, l: Loan)
    ensures Sum(Available(loans[id := l])) ==
        Sum(Available(loans)) - (if id in loans then loans[id].available else 0) + l.available
    ensures Sum(Debts(loans[id := l])) == Sum(Debts(loans)) - (if id in loans then loans[id].total else 0) + l.total
  {
    assert Available(loans[id := l]) == Available(loans)[id := l.available];
    assert Debts(loans[id := l]) == Debts(loans)[id := l.total];
    SumSet(Available(loans), id, l.available);
    SumSet(Debts(loans), id, l.total);
  }

  lemma LoanRemoved(loans: map<LoanId, Loan>, id: LoanId)
    requires id in loans
    ensures Sum(Available(loans - {id})) == Sum(Available(loans)) - loans[id].available
    ensures Sum(Debts(loans - {id})) == Sum(Debts(loans)) - loans[id].total
  {
    assert Available(loans - {id}) == Available(loans) - {id};
    assert Debts(loans - {id}) == Debts(loans) - {id};
    SumRemove(Available(loans), id);
    SumRemove(Debts(loans), id);
  }

  // ---------------------------------------------------------------- what the operations do

  /** Balances and issuance may differ, nothing else. */
  ghost predicate LedgerOnly(s: State, t: State)
  {
    && t.loans == s.loans && t.byAccount == s.byAccount && t.packages == s.packages && t.active == s.active
    && t.liquidating == s.liquidating && t.nextLoan == s.nextLoan && t.nextPackage == s.nextPackage
    && t.totalLoan == s.totalLoan && t.totalCollateral == s.totalCollateral && t.totalProfit == s.totalProfit
    && t.price == s.price
    && t.writtenOff == s.writtenOff && t.defaulted == s.defaulted && t.loanBase == s.loanBase
    && t.shopBase == s.shopBase
  }

  ghost predicate SameLedger(s: State, t: State)
  {
    (forall a, u :: Bal(t.free, a, u) == Bal(s.free, a, u)) && (forall a :: t.Issued(a) == s.Issued(a))
  }

  ghost predicate Moves(s: State, t: State, a: AssetId, from: AccountId, to: AccountId, x: nat)
  {
    MovedIn(s.free, t.free, a, from, to, x) && forall b :: t.Issued(b) == s.Issued(b)
  }

  /** A loan's money: interest to the pool, the rest to the borrower. */
  ghost predicate LoanMinted(c: Config, s: State, t: State, who: AccountId, amount: nat, interest: nat)
  {
    && (forall b, u :: Bal(t.free, b, u) == Bal(s.free, b, u)
          + (if b == c.loan && u == c.pool then interest else 0)
          + (if b == c.loan && u == who then amount - interest else 0))
    && (forall b :: t.Issued(b) == s.Issued(b) + if b == c.loan then amount else 0)
  }

  /** Collateral against a loan: what `who` gives and gets. */
  ghost predicate Funded(c: Config, s: State, t: State, who: AccountId, collateral: nat, amount: nat, interest: nat)
  {
    && (forall b, u :: Bal(t.free, b, u) == Bal(s.free, b, u)
          - (if b == c.collateral && u == who then collateral else 0)
          + (if b == c.collateral && u == c.shop then collateral else 0)
          + (if b == c.loan && u == c.pool then interest else 0)
          + (if b == c.loan && u == who then amount - interest else 0))
    && (forall b :: t.Issued(b) == s.Issued(b) + if b == c.loan then amount else 0)
  }

  /** A new loan. */
  ghost predicate Lent(c: Config, s: State, t: State, l: Loan, interest: nat)
  {
    var id := s.nextLoan;
    && t.nextLoan == id + 1
    && t.loans == s.loans[id := l] && t.byAccount == s.byAccount[l.who := s.Loans(l.who) + [id]]
    && t.totalLoan == s.totalLoan + l.total && t.totalCollateral == s.totalCollateral + l.available
    && t.totalProfit == s.totalProfit + interest
    && t.packages == s.packages && t.active == s.active && t.liquidating == s.liquidating
    && t.nextPackage == s.nextPackage
    && t.price == s.price && t.writtenOff == s.writtenOff && t.defaulted == s.defaulted && t.loanBase == s.loanBase
    && t.shopBase == s.shopBase
    && Funded(c, s, t, l.who, l.available, l.total, interest)
  }

  /** `amount` more drawn from a loan. */
  ghost predicate Drawn(c: Config, s: State, t: State, id: LoanId, amount: nat, interest: nat)
    requires id in s.loans
  {
    var l := s.loans[id];
    && t.loans == s.loans[id := l.(total := l.total + amount)] && t.totalLoan == s.totalLoan + amount
    && t.totalProfit == s.totalProfit + interest
    && t.byAccount == s.byAccount && t.packages == s.packages && t.active == s.active && t.liquidating == s.liquidating
    && t.nextLoan == s.nextLoan && t.nextPackage == s.nextPackage && t.totalCollateral == s.totalCollateral
    && t.price == s.price && t.writtenOff == s.writtenOff && t.defaulted == s.defaulted && t.loanBase == s.loanBase
    && t.shopBase == s.shopBase
    && LoanMinted(c, s, t, l.who, amount, interest)
  }

  /** Debt paid and burned, collateral returned. */
  ghost predicate Settled(c: Config, s: State, t: State, who: AccountId, debt: nat, collateral: nat)
  {
    && (forall b, u :: Bal(t.free, b, u) == Bal(s.free, b, u)
          - (if b == c.loan && u == who then debt else 0)
          - (if b == c.collateral && u == c.shop then collateral else 0)
          + (if b == c.collateral && u == who then collateral else 0))
    && (forall b :: t.Issued(b) == s.Issued(b) - if b == c.loan then debt else 0)
  }

  /** A loan paid back: the debt is burned, the collateral returned, every trace gone. */
  ghost predicate Repaid(c: Config, s: State, t: State, id: LoanId)
    requires id in s.loans
  {
    var l := s.loans[id];
    && t.loans == s.loans - {id} && t.byAccount == s.byAccount[l.who := Without(s.Loans(l.who), id)]
    && t.totalLoan == s.totalLoan - l.total && t.totalCollateral == s.totalCollateral - l.available
    && t.totalProfit == s.totalProfit
    && t.packages == s.packages && t.active == s.active && t.liquidating == s.liquidating
    && t.nextLoan == s.nextLoan && t.nextPackage == s.nextPackage
    && t.price == s.price && t.writtenOff == s.writtenOff && t.defaulted == s.defaulted && t.loanBase == s.loanBase
    && t.shopBase == s.shopBase
    && Settled(c, s, t, l.who, l.total, l.available)
  }

  ghost predicate Topped(c: Config, s: State, t: State, id: LoanId, amount: nat)
    requires id in s.loans
  {
    var l := s.loans[id];
    && t.loans == s.loans[id := l.(original := l.original + amount, available := l.available + amount)]
    && t.totalCollateral == s.totalCollateral + amount && t.totalLoan == s.totalLoan && t.totalProfit == s.totalProfit
    && t.byAccount == s.byAccount && t.packages == s.packages && t.active == s.active && t.liquidating == s.liquidating
    && t.nextLoan == s.nextLoan && t.nextPackage == s.nextPackage
    && t.price == s.price && t.writtenOff == s.writtenOff && t.defaulted == s.defaulted && t.loanBase == s.loanBase
    && t.shopBase == s.shopBase
    && Moves(s, t, c.collateral, l.who, c.shop, amount)
  }

  /** Out of `auction`: the debt to the shop, the penalty to the pool, the rest to the borrower. */
  ghost predicate AuctionPaid(c: Config, s: State, t: State, who: AccountId, auction: nat, debt: nat, penalty: nat)
  {
    && debt + penalty <= auction
    && (forall b, u :: Bal(t.free, b, u) == Bal(s.free, b, u)
          - (if b == c.loan && u == c.liquidator then auction else 0) + (if b == c.loan && u == c.shop then debt else 0)
          + (if b == c.loan && u == c.pool then penalty else 0)
          + (if b == c.loan && u == who then auction - debt - penalty else 0))
    && (forall b :: t.Issued(b) == s.Issued(b))
  }

  /** A liquidated loan: the auction pays the shop the debt, the pool a penalty, and the borrower
      the rest.  The totals stay: the collateral is still in the shop's books. */
  ghost predicate Liquidated(c: Config, s: State, t: State, id: LoanId, auction: nat, penalty: nat)
    requires id in s.loans
  {
    var l := s.loans[id];
    && t.loans == s.loans - {id} && t.byAccount == s.byAccount[l.who := Without(s.Loans(l.who), id)]
    && t.liquidating == Without(s.liquidating, id) && t.writtenOff == s.writtenOff + l.available
    && t.defaulted == s.defaulted + l.total
    && t.totalLoan == s.totalLoan && t.totalCollateral == s.totalCollateral && t.totalProfit == s.totalProfit
    && t.packages == s.packages && t.active == s.active && t.nextLoan == s.nextLoan && t.nextPackage == s.nextPackage
    && t.price == s.price && t.loanBase == s.loanBase && t.shopBase == s.shopBase
    && AuctionPaid(c, s, t, l.who, auction, l.total, penalty)
  }

  /** Whatever a refused call leaves: the same books, at most a loan id used up. */
  ghost predicate Untouched(s: State, t: State)
  {
    && SameLedger(s, t) && s.nextLoan <= t.nextLoan
    && t.loans == s.loans && t.byAccount == s.byAccount && t.packages == s.packages && t.active == s.active
    && t.liquidating == s.liquidating && t.nextPackage == s.nextPackage
    && t.totalLoan == s.totalLoan && t.totalCollateral == s.totalCollateral && t.totalProfit == s.totalProfit
    && t.price == s.price && t.writtenOff == s.writtenOff && t.defaulted == s.defaulted && t.loanBase == s.loanBase
    && t.shopBase == s.shopBase
  }

  /** The requests `apply` grants, and the loan they get. */
  ghost predicate Granted(c: Config, s: State, who: AccountId, p: PackageId, collateral: nat, loan: nat, now: nat)
  {
    && p in s.active && (c.terms.cap.Some? ==> s.totalLoan < c.terms.cap.value)
    && collateral >= c.terms.minimumCollateral
    && var q := CollateralLoan(c.terms, s.price, collateral, loan);
       var package := s.active[p];
       && q.Quoted? && package.min <= q.loan && q.loan > 0 && package.LowRate()
       && q.loan * (package.terms * 24 * package.hourlyRate) <= MAX_BALANCE
       && q.collateral <= Bal(s.free, c.collateral, who) && s.Issued(c.loan) + q.loan <= MAX_BALANCE
       && s.totalProfit + q.loan * (package.terms * 24 * package.hourlyRate) / 1_0000_0000 <= MAX_BALANCE
       && now + package.terms * 86_400_000 + 172_800_000 <= MAX_U64 && s.nextLoan < MAX_U64
  }

  lemma GrantedWhen(c: Config, s: State, who: AccountId, p: PackageId, collateral: nat, loan: nat, now: nat)
    requires p in s.active && (c.terms.cap.Some? ==> s.totalLoan < c.terms.cap.value)
    requires collateral >= c.terms.minimumCollateral && CollateralLoan(c.terms, s.price, collateral, loan).Quoted?
    requires s.active[p].min <= CollateralLoan(c.terms, s.price, collateral, loan).loan
    ensures var q, package := CollateralLoan(c.terms, s.price, collateral, loan), s.active[p];
            Granted(c, s, who, p, collateral, loan, now) <==>
              && package.Interest(q.loan).Ok? && package.Interest(q.loan).value < q.loan && package.Dues(now).Ok?
              && q.collateral <= Bal(s.free, c.collateral, who) && s.Issued(c.loan) + q.loan <= MAX_BALANCE
              && s.totalProfit + package.Interest(q.loan).value <= MAX_BALANCE && s.nextLoan < MAX_U64
  {
    var q, package := CollateralLoan(c.terms, s.price, collateral, loan), s.active[p];
    InterestExact(package, q.loan);
    if package.Interest(q.loan).Ok? { InterestBelowAmount(package, q.loan, package.Interest(q.loan).value); }
    DuesExact(package, now);
    hide CollateralLoan, InterestIs, DuesAre, Package.Interest, Package.Dues, Package.LowRate;
  }

  /** A granted loan: what was asked for at the quoted price, due when its term is over, and the interest of the term
      goes to the pool. */
  ghost predicate LentTo(c: Config, s: State, t: State, who: AccountId, p: PackageId, collateral: nat, loan: nat,
                         now: nat)
  {
    && p in s.active && s.nextLoan in t.loans && s.totalProfit <= t.totalProfit
    && var l, interest := t.loans[s.nextLoan], t.totalProfit - s.totalProfit;
       && Priced(c.terms, s.price, collateral, loan, l.available, l.total)
       && DuesAre(s.active[p], now, l.due, l.dueExtend)
       && l == Loan(p, who, l.due, l.dueExtend, l.available, l.available, l.total, Well)
       && InterestIs(s.active[p], l.total, interest) && Lent(c, s, t, l, interest)
  }

  lemma LentIs(c: Config, s: State, t: State, who: AccountId, p: PackageId, collateral: nat, loan: nat, now: nat)
    requires p in s.active && CollateralLoan(c.terms, s.price, collateral, loan).Quoted?
    requires s.active[p].Dues(now).Ok?
    requires var q, package := CollateralLoan(c.terms, s.price, collateral, loan), s.active[p];
             package.Interest(q.loan).Ok? && Lent(c, s, t, NewLoan(who, p, package, q.collateral, q.loan, now),
                                                  package.Interest(q.loan).value)
    ensures LentTo(c, s, t, who, p, collateral, loan, now)
    ensures t.loans[s.nextLoan].available == CollateralLoan(c.terms, s.price, collateral, loan).collateral
    ensures t.loans[s.nextLoan].total == CollateralLoan(c.terms, s.price, collateral, loan).loan
  {
    QuoteIs(c.terms, s.price, collateral, loan);
    InterestExact(s.active[p], CollateralLoan(c.terms, s.price, collateral, loan).loan);
    DuesExact(s.active[p], now);
    hide CollateralLoan, InterestIs, DuesAre, Package.Interest, Package.Dues, Priced, Quotable, Funded;
  }

  /** Whether a granted loan is within the limit: always, if the request named its collateral, and a
      positive minimum makes every granted request do so.  Otherwise it depends on the rounding. */
  lemma GrantedWithinLimit(c: Config, s: State, who: AccountId, p: PackageId, collateral: nat, loan: nat, now: nat)
    requires Granted(c, s, who, p, collateral, loan, now)
    ensures var q := CollateralLoan(c.terms, s.price, collateral, loan);
            && (c.terms.minimumCollateral > 0 ==> collateral > 0)
            && (collateral > 0 ==> q.collateral == collateral)
            && (WithinLimit(c.terms, q.collateral, q.loan, s.price) <==>
                  collateral > 0 || RoundsWithin(c.terms, s.price, loan, q.collateral))
  {
    if collateral > 0 {
      QuotesKeepLimit(c.terms, s.price, collateral, loan);
    } else {
      DerivedKeepsLimitWhen(c.terms, s.price, loan);
    }
  }

  function NewLoan(who: AccountId, p: PackageId, package: Package, collateral: nat, loan: nat, now: nat): Loan
    requires package.Dues(now).Ok?
  {
    var dues := package.Dues(now).value;
    Loan(p, who, dues.0, dues.1, collateral, collateral, loan, Well)
  }

  /** The draws that are within the loan's credit. */
  ghost predicate InCredit(c: Config, s: State, who: AccountId, id: LoanId, amount: nat)
  {
    && id in s.loans && s.loans[id].who == who && s.loans[id].package in s.packages
    && (s.loans[id].total + amount) * 1_0000_0000 <= s.loans[id].available * s.price * c.terms.ltvLimit <= MAX_BALANCE
    && var p := s.packages[s.loans[id].package];
       amount * (p.terms * 24 * p.hourlyRate) <= MAX_BALANCE
  }

  /** The draws `draw` grants. */
  ghost predicate Drawable(c: Config, s: State, who: AccountId, id: LoanId, amount: nat)
  {
    && InCredit(c, s, who, id, amount) && s.Issued(c.loan) + amount <= MAX_BALANCE
    && var p := s.packages[s.loans[id].package];
       s.totalProfit + amount * (p.terms * 24 * p.hourlyRate) / 1_0000_0000 <= MAX_BALANCE
  }

  /** `amount` more for the borrower, less its interest, which goes to the pool. */
  ghost predicate DrawnFrom(c: Config, s: State, t: State, id: LoanId, amount: nat)
  {
    && id in s.loans && s.loans[id].package in s.packages && s.totalProfit <= t.totalProfit
    && InterestIs(s.packages[s.loans[id].package], amount, t.totalProfit - s.totalProfit)
    && Drawn(c, s, t, id, amount, t.totalProfit - s.totalProfit)
  }

  /** Steps of the ledger. */
  ghost predicate Mints(s: State, t: State, a: AssetId, u: AccountId, x: nat)
  {
    MintedIn(s.free, s.issuance, t.free, t.issuance, a, u, x)
  }

  ghost predicate Burns(s: State, t: State, a: AssetId, u: AccountId, x: nat)
  {
    BurnedIn(s.free, s.issuance, t.free, t.issuance, a, u, x)
  }

  lemma MintShows(s: State, t: State, a: AssetId, u: AccountId, x: nat)
    requires Mints(s, t, a, u, x)
    ensures Bal(t.free, a, u) == Bal(s.free, a, u) + x && Get(t.issuance, a) == Get(s.issuance, a) + x
  {
  }

  lemma MoveShows(s: State, t: State, a: AssetId, from: AccountId, to: AccountId, x: nat)
    requires Moves(s, t, a, from, to, x) && from != to
    ensures Bal(t.free, a, to) == Bal(s.free, a, to) + x
    ensures forall b, u :: b != a ==> Bal(t.free, b, u) == Bal(s.free, b, u)
  {
  }

  lemma LedgerKept(s: State, t: State)
    requires t.free == s.free && t.issuance == s.issuance
    ensures SameLedger(s, t)
  {
  }

  lemma MintsAddUp(c: Config, s: State, m: State, t: State, who: AccountId, amount: nat, interest: nat)
    requires interest <= amount && Mints(s, m, c.loan, c.pool, interest) && Mints(m, t, c.loan, who, amount - interest)
    ensures LoanMinted(c, s, t, who, amount, interest)
  {
  }

  lemma MintReverted(s: State, m: State, t: State, a: AssetId, u: AccountId, x: nat)
    requires Mints(s, m, a, u, x) && Burns(m, t, a, u, x)
    ensures SameLedger(s, t)
  {
  }

  lemma SettledLaw(c: Config, s: State, m: State, n: State, t: State, who: AccountId, debt: nat, collateral: nat)
    requires Moves(s, m, c.loan, who, c.shop, debt) && Moves(m, n, c.collateral, c.shop, who, collateral)
    requires Burns(n, t, c.loan, c.shop, debt)
    ensures Settled(c, s, t, who, debt, collateral)
  {
  }

  // ---------------------------------------------------------------- they keep the laws

  lemma LentKeepsLaws(c: Config, s: State, t: State, l: Loan, interest: nat)
    requires c.WellFormed() && Laws(c, s) && Lent(c, s, t, l, interest) && l.who != c.shop
    requires !l.status.Liquidating? && interest <= l.total
    requires l.package in s.packages && s.packages[l.package].LowRate()
    ensures Laws(c, t)
  {
    LoanSet(s.loans, s.nextLoan, l);
    assert forall id :: id in s.loans ==> SoundLoan(s, id);
    PushedIndex(s, t, l);
    assert Sound(t);
    assert Liquidations(t);
  }

  lemma PushedIndex(s: State, t: State, l: Loan)
    requires Indexed(s) && s.nextLoan !in s.loans && t.loans == s.loans[s.nextLoan := l]
    requires t.byAccount == s.byAccount[l.who := s.Loans(l.who) + [s.nextLoan]]
    ensures Indexed(t)
  {
    PushHolds(s.Loans(l.who), s.nextLoan);
    forall u ensures NoDuplicates(t.Loans(u)) { assert u != l.who ==> t.Loans(u) == s.Loans(u); }
    forall u, id ensures id in t.Loans(u) <==> id in t.loans && t.loans[id].who == u {
      assert u != l.who ==> t.Loans(u) == s.Loans(u);
      assert id in s.Loans(u) <==> id in s.loans && s.loans[id].who == u;
    }
  }

  lemma RemovedIndex(s: State, t: State, id: LoanId)
    requires Indexed(s) && id in s.loans && t.loans == s.loans - {id}
    requires t.byAccount == s.byAccount[s.loans[id].who := Without(s.Loans(s.loans[id].who), id)]
    ensures Indexed(t)
  {
    var who := s.loans[id].who;
    WithoutHolds(s.Loans(who), id);
    forall u ensures NoDuplicates(t.Loans(u)) { assert u != who ==> t.Loans(u) == s.Loans(u); }
    forall u, x ensures x in t.Loans(u) <==> x in t.loans && t.loans[x].who == u {
      assert u != who ==> t.Loans(u) == s.Loans(u);
      assert x in s.Loans(u) <==> x in s.loans && s.loans[x].who == u;
    }
  }

  lemma SameIndex(s: State, t: State)
    requires Indexed(s) && t.byAccount == s.byAccount && t.loans.Keys == s.loans.Keys
    requires forall id :: id in s.loans ==> t.loans[id].who == s.loans[id].who
    ensures Indexed(t)
  {
    forall u ensures t.Loans(u) == s.Loans(u) { }
  }

  lemma DrawnKeepsLaws(c: Config, s: State, t: State, id: LoanId, amount: nat, interest: nat)
    requires c.WellFormed() && Laws(c, s) && id in s.loans && Drawn(c, s, t, id, amount, interest) && interest <= amount
    ensures Laws(c, t)
  {
    var l := s.loans[id];
    LoanSet(s.loans, id, l.(total := l.total + amount));
    SameIndex(s, t);
    assert SoundLoan(s, id);
    assert Sound(t) && Liquidations(t) && Booked(c, t);
  }

  lemma RepaidKeepsLaws(c: Config, s: State, t: State, id: LoanId)
    requires c.WellFormed() && Laws(c, s) && id in s.loans && id !in s.liquidating && Repaid(c, s, t, id)
    requires s.loans[id].who != c.shop
    ensures Laws(c, t)
  {
    LoanRemoved(s.loans, id);
    RemovedIndex(s, t, id);
    assert forall x :: x in t.loans ==> SoundLoan(s, x);
    assert Sound(t) && Liquidations(t) && Booked(c, t);
  }

  lemma ToppedKeepsLaws(c: Config, s: State, t: State, id: LoanId, amount: nat)
    requires c.WellFormed() && Laws(c, s) && id in s.loans && Topped(c, s, t, id, amount) && s.loans[id].who != c.shop
    ensures Laws(c, t)
  {
    ToppedKeepsBooks(c, s, t, id, amount);
    ToppedKeepsSound(c, s, t, id, amount);
    SameIndex(s, t);
    hide Sound, Liquidations, Indexed, Booked;
  }

  lemma ToppedKeepsBooks(c: Config, s: State, t: State, id: LoanId, amount: nat)
    requires c.WellFormed() && Booked(c, s) && id in s.loans && Topped(c, s, t, id, amount) && s.loans[id].who != c.shop
    ensures Booked(c, t)
  {
    assert Bal(t.free, c.collateral, c.shop) == Bal(s.free, c.collateral, c.shop) + amount;
    assert t.Issued(c.loan) == s.Issued(c.loan);
    ToppedBooks(c, s, t, id, t.loans[id], amount);
  }

  lemma ToppedBooks(c: Config, s: State, t: State, id: LoanId, l: Loan, amount: nat)
    requires Booked(c, s) && id in s.loans && t.loans == s.loans[id := l]
    requires l.available == s.loans[id].available + amount && l.total == s.loans[id].total
    requires t.totalCollateral == s.totalCollateral + amount && t.totalLoan == s.totalLoan
    requires t.Issued(c.loan) == s.Issued(c.loan)
    requires Bal(t.free, c.collateral, c.shop) == Bal(s.free, c.collateral, c.shop) + amount
    requires t.writtenOff == s.writtenOff && t.defaulted == s.defaulted && t.loanBase == s.loanBase
    requires t.shopBase == s.shopBase
    ensures Booked(c, t)
  {
    LoanSet(s.loans, id, l);
  }

  lemma ToppedKeepsSound(c: Config, s: State, t: State, id: LoanId, amount: nat)
    requires Sound(s) && Liquidations(s) && id in s.loans && Topped(c, s, t, id, amount)
    ensures Sound(t) && Liquidations(t)
  {
    hide Moves;
    assert SoundLoan(s, id);
    forall x | x in t.loans ensures SoundLoan(t, x) { assert SoundLoan(s, x); }
  }

  lemma LiquidatedKeepsLaws(c: Config, s: State, t: State, id: LoanId, auction: nat, penalty: nat)
    requires c.WellFormed() && Laws(c, s) && id in s.loans && id in s.liquidating
    requires Liquidated(c, s, t, id, auction, penalty)
    ensures Laws(c, t)
  {
    LoanRemoved(s.loans, id);
    RemovedIndex(s, t, id);
    WithoutHolds(s.liquidating, id);
    assert forall x :: x in t.loans ==> SoundLoan(s, x);
    assert Sound(t) && Liquidations(t) && Booked(c, t);
  }

  /** A plain transfer; what reaches the shop from outside adds to its base. */
  lemma MoveKeepsLaws(c: Config, s: State, t: State, a: AssetId, from: AccountId, to: AccountId, x: nat)
    requires Laws(c, s) && Moves(s, t, a, from, to, x) && from != c.shop
    requires t.shopBase == s.shopBase + if a == c.collateral && to == c.shop then x else 0
    requires t.loans == s.loans && t.byAccount == s.byAccount && t.packages == s.packages && t.active == s.active
    requires t.liquidating == s.liquidating && t.nextLoan == s.nextLoan && t.nextPackage == s.nextPackage
    requires t.totalLoan == s.totalLoan && t.totalCollateral == s.totalCollateral
    requires t.writtenOff == s.writtenOff && t.defaulted == s.defaulted && t.loanBase == s.loanBase
    ensures Laws(c, t)
  {
    SameIndex(s, t);
    assert forall x :: x in t.loans ==> SoundLoan(s, x);
    assert Sound(t) && Liquidations(t) && Booked(c, t);
  }

  lemma SameLedgerKeepsLaws(c: Config, s: State, t: State)
    requires Laws(c, s) && SameLedger(s, t)
    requires t.loans == s.loans && t.byAccount == s.byAccount && t.packages == s.packages && t.active == s.active
    requires t.liquidating == s.liquidating && t.nextLoan >= s.nextLoan && t.nextPackage == s.nextPackage
    requires t.totalLoan == s.totalLoan && t.totalCollateral == s.totalCollateral
    requires t.writtenOff == s.writtenOff && t.defaulted == s.defaulted && t.loanBase == s.loanBase
    requires t.shopBase == s.shopBase
    ensures Laws(c, t)
  {
    SameIndex(s, t);
    assert forall x :: x in t.loans ==> SoundLoan(s, x);
    assert Sound(t) && Liquidations(t) && Booked(c, t);
  }

  /** No loan has more collateral than the shop holds, or more debt than was issued. */
  lemma ShopCovers(c: Config, s: State, id: LoanId)
    requires Booked(c, s) && id in s.loans
    ensures s.loans[id].available <= s.totalCollateral <= Bal(s.free, c.collateral, c.shop)
    ensures s.loans[id].total <= s.totalLoan <= s.Issued(c.loan)
  {
    SumBoundsOne(Available(s.loans), id);
    SumBoundsOne(Debts(s.loans), id);
  }
}
