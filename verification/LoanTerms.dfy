/** The arithmetic of rio-loan: loan-to-value ratios, interest, dues and expiry fees, computed
    as the code does, with what can go wrong kept apart: a division by zero, or a number that
    does not fit its machine word. */
module LoanTerms {
  import opened Primitives

  type LoanId = nat
  type PackageId = nat

  const MAX_U64: nat := 0xFFFF_FFFF_FFFF_FFFF
  const LTV_PREC: nat := 10000
  const PRICE_PREC: nat := 10000
  const INTEREST_RATE_PREC: nat := 1_0000_0000
  const TERMS_UNIT: nat := 86400
  const DUE_EXTEND: nat := 2

  datatype Checked<+T> = Ok(value: T) | DivisionByZero | Overflow

  datatype Health = Well | Warning(ltv: nat) | Liquidating(ltv: nat) | Extended | Expired

  datatype Package = Package(active: bool, terms: nat, min: nat, hourlyRate: nat)
  {
    /** Interest of the whole term: so many days, an hourly rate in units of 10^-8. */
    function Interest(amount: nat): (r: Checked<nat>)
      ensures !r.DivisionByZero?
    {
      var n := amount * (terms * 24 * hourlyRate);
      if n > MAX_BALANCE then Overflow else Ok(n / INTEREST_RATE_PREC)
    }

    /** The interest of the whole term is below the amount, whatever the amount. */
    ghost predicate LowRate() { terms * 24 * hourlyRate < 1_0000_0000 }

    /** When a loan is due, and when it expires; times are 64-bit milliseconds. */
    function Dues(now: nat): (r: Checked<(nat, nat)>)
      ensures !r.DivisionByZero?
      ensures r.Ok? ==> now < r.value.1
    {
      var due := now + TERMS_UNIT * terms * 1000;
      var extend := due + DUE_EXTEND * TERMS_UNIT * 1000;
      if extend > MAX_U64 then Overflow else Ok((due, extend))
    }
  }

  /** `i` is the interest on an amount, in whole units. */
  ghost predicate InterestIs(p: Package, amount: nat, i: nat)
  {
    i * 1_0000_0000 <= amount * (p.terms * 24 * p.hourlyRate) < (i + 1) * 1_0000_0000
  }

  lemma InterestExact(p: Package, amount: nat)
    ensures p.Interest(amount).Ok? <==> amount * (p.terms * 24 * p.hourlyRate) <= MAX_BALANCE
    ensures p.Interest(amount).Ok? ==>
      InterestIs(p, amount, p.Interest(amount).value)
      && p.Interest(amount).value == amount * (p.terms * 24 * p.hourlyRate) / 1_0000_0000
  {
    QuotientBounds(amount * (p.terms * 24 * p.hourlyRate), INTEREST_RATE_PREC);
  }

  /** Interest is below the amount exactly if there is an amount and the rate of the term is below one. */
  lemma InterestBelowAmount(p: Package, amount: nat, i: nat)
    requires InterestIs(p, amount, i)
    ensures i < amount <==> amount > 0 && p.LowRate()
  {
    RateBelowOne(amount, p.terms * 24 * p.hourlyRate, i);
  }

  lemma RateBelowOne(amount: nat, rate: nat, i: nat)
    requires i * 1_0000_0000 <= amount * rate < (i + 1) * 1_0000_0000
    ensures i < amount <==> amount > 0 && rate < 1_0000_0000
  {
    if amount > 0 && rate < 1_0000_0000 {
      MulMono(rate + 1, 1_0000_0000, amount);
      assert (rate + 1) * amount == amount * rate + amount;
    }
    if rate >= 1_0000_0000 { MulMono(1_0000_0000, rate, amount); }
  }

  datatype Loan = Loan(
    package: PackageId,
    who: AccountId,
    due: nat,
    dueExtend: nat,
    original: nat,
    available: nat,        // collateral
    total: nat,            // what was borrowed
    status: Health)

  datatype Terms = Terms(
    ltvLimit: nat,
    liquidation: nat,      // thresholds
    warning: nat,
    penaltyRate: nat,
    minimumCollateral: nat,
    liquidationPenalty: nat,
    cap: Option<nat>)

  const LTV_UNIT: nat := 1_0000_0000

  function Quotient(n: nat, d: nat): nat
    requires d > 0
  {
    n / d
  }

  /** The loan-to-value ratio, in units of 10^-4. */
  function Ltv(collateral: nat, loan: nat, price: nat): Checked<nat>
  {
    Ratio(loan * LTV_UNIT, collateral * price)
  }

  function Ratio(n: nat, d: nat): Checked<nat>
  {
    if n > MAX_BALANCE || d > MAX_BALANCE then Overflow
    else if d == 0 then DivisionByZero
    else if Quotient(n, d) > MAX_U64 then Overflow
    else Ok(Quotient(n, d))
  }

  // ---------------------------------------------------------------- one LTV limit, three routes

  datatype Quote = Quoted(collateral: nat, loan: nat) | Refused(reason: string) | Fault

  /** get_collateral_loan: whichever of the two amounts is zero is worked out from the other. */
  function CollateralLoan(t: Terms, price: nat, collateral: nat, loan: nat): Quote
  {
    if collateral == 0 && loan == 0 then Refused("both amount are zero")
    else if collateral == 0 then
      if loan * LTV_UNIT > MAX_BALANCE || price * t.ltvLimit > MAX_BALANCE || price * t.ltvLimit == 0 then Fault
      else Quoted(loan * LTV_UNIT / (price * t.ltvLimit), loan)
    else if loan == 0 then
      if collateral * price * t.ltvLimit > MAX_BALANCE then Fault
      else Quoted(collateral, MaxLoan(t, price, collateral))
    else if loan * LTV_UNIT > MAX_BALANCE || price == 0 then Fault
    else if loan * LTV_UNIT / collateral / price > t.ltvLimit then Refused("over LTV limit")
    else Quoted(collateral, loan)
  }

  /** The largest loan the limit allows. */
  function MaxLoan(t: Terms, price: nat, collateral: nat): nat
  {
    collateral * price * t.ltvLimit / LTV_UNIT
  }

  /** The credit line of a loan, as `draw` computes it: two divisions in a row. */
  function Credit(t: Terms, price: nat, l: Loan): (r: Checked<nat>)
    ensures !r.DivisionByZero?
  {
    var most := l.available * price * t.ltvLimit / LTV_PREC / PRICE_PREC;
    if l.available * price * t.ltvLimit > MAX_BALANCE || most < l.total then Overflow else Ok(most - l.total)
  }

  /** A loan has collateral of some worth, and its ratio, computed exactly, is within the limit. */
  predicate WithinLimit(t: Terms, collateral: nat, loan: nat, price: nat)
  {
    loan == 0 || (collateral * price > 0 && loan * LTV_UNIT / (collateral * price) <= t.ltvLimit)
  }

  lemma Cancel(a: int, b: int, c: nat)
    requires c > 0 && a * c < b * c
    ensures a < b
  {
    if b <= a { MulMono(b, a, c); }
  }

  lemma QuotientBounds(n: nat, d: nat)
    requires d > 0
    ensures n / d * d <= n < n / d * d + d
  {
    assert n == n / d * d + n % d;
  }

  /** Dividing twice is dividing by the product. */
  lemma NestedFloor(n: nat, a: nat, b: nat)
    requires a > 0 && b > 0
    ensures a * b > 0 && n / a / b == n / (a * b)
  {
    MulMono(1, a, b);
    QuotientBounds(n, a);
    QuotientBounds(n / a, b);
    NestedBounds(n, n / a, n / a / b, a, b);
    QuotientIs(n, a * b, n / a / b);
  }

  lemma NestedBounds(n: nat, m: nat, q: nat, a: nat, b: nat)
    requires m * a <= n < m * a + a && q * b <= m < q * b + b
    ensures q * (a * b) <= n < q * (a * b) + a * b
  {
    MulMono(q * b, m, a);
    MulMono(m + 1, q * b + b, a);
    assert q * b * a == q * (a * b) && (q * b + b) * a == q * (a * b) + a * b;
    assert (m + 1) * a == m * a + a;
  }

  /** A quotient is at most `q` exactly when the dividend stays below the next multiple. */
  lemma QuotientAtMost(n: nat, d: nat, q: nat)
    requires d > 0
    ensures n / d <= q <==> n < (q + 1) * d
  {
    QuotientBounds(n, d);
    if n / d <= q { MulMono(n / d + 1, q + 1, d); assert (n / d + 1) * d == n / d * d + d; }
    if n < (q + 1) * d { Cancel(n / d, q + 1, d); }
  }

  lemma QuotientAtLeast(n: nat, d: nat, q: nat)
    requires d > 0
    ensures q <= n / d <==> q * d <= n
  {
    if q > 0 { QuotientAtMost(n, d, q - 1); }
  }

  /** The maximum is the largest loan that the limit's share of the collateral's worth covers. */
  lemma MaxLoanIsLargest(t: Terms, price: nat, collateral: nat, loan: nat)
    ensures loan <= MaxLoan(t, price, collateral) <==> loan * 1_0000_0000 <= collateral * price * t.ltvLimit
  {
    QuotientAtLeast(collateral * price * t.ltvLimit, LTV_UNIT, loan);
  }

  /** So is the credit the most that can be drawn on top of a loan. */
  lemma CreditIsLargest(t: Terms, price: nat, l: Loan, amount: nat)
    ensures Credit(t, price, l).Ok? && amount <= Credit(t, price, l).value <==>
              (l.total + amount) * 1_0000_0000 <= l.available * price * t.ltvLimit <= MAX_BALANCE
  {
    NestedFloor(l.available * price * t.ltvLimit, LTV_PREC, PRICE_PREC);
    MaxLoanIsLargest(t, price, l.available, l.total + amount);
    MaxLoanIsLargest(t, price, l.available, l.total);
  }

  /** The requests that are quoted: some amount is named, the numbers fit, and if both are named the ratio,
      rounded down, is within the limit. */
  ghost predicate Quotable(t: Terms, price: nat, collateral: nat, loan: nat)
  {
    && (collateral > 0 || loan > 0) && (loan > 0 ==> loan * 1_0000_0000 <= MAX_BALANCE)
    && (collateral == 0 ==> 0 < price * t.ltvLimit <= MAX_BALANCE)
    && (loan == 0 ==> collateral * price * t.ltvLimit <= MAX_BALANCE)
    && (collateral > 0 && loan > 0 ==> price > 0 && loan * 1_0000_0000 < (t.ltvLimit + 1) * (collateral * price))
  }

  /** What is quoted: the amounts that were named; a loan not named is the largest within the limit, and
      collateral not named is what the loan would be the limit's share of, rounded down. */
  ghost predicate Priced(t: Terms, price: nat, collateral: nat, loan: nat, c: nat, l: nat)
  {
    && (collateral > 0 ==> c == collateral) && (loan > 0 ==> l == loan)
    && (collateral == 0 ==> c * (price * t.ltvLimit) <= loan * 1_0000_0000 < (c + 1) * (price * t.ltvLimit))
    && (loan == 0 ==> l * 1_0000_0000 <= collateral * price * t.ltvLimit < (l + 1) * 1_0000_0000)
  }

  ghost predicate QuotedAs(t: Terms, price: nat, collateral: nat, loan: nat)
  {
    var q := CollateralLoan(t, price, collateral, loan);
    && (q.Quoted? <==> Quotable(t, price, collateral, loan))
    && (q.Quoted? ==> Priced(t, price, collateral, loan, q.collateral, q.loan))
  }

  lemma QuoteIs(t: Terms, price: nat, collateral: nat, loan: nat)
    ensures QuotedAs(t, price, collateral, loan)
  {
    if loan == 0 {
      LoanQuoted(t, price, collateral);
    } else if collateral == 0 {
      CollateralQuoted(t, price, loan);
    } else {
      BothQuoted(t, price, collateral, loan);
    }
    hide QuotedAs;
  }

  lemma LoanQuoted(t: Terms, price: nat, collateral: nat)
    ensures QuotedAs(t, price, collateral, 0)
  {
    QuotientBounds(collateral * price * t.ltvLimit, LTV_UNIT);
  }

  lemma CollateralQuoted(t: Terms, price: nat, loan: nat)
    requires loan > 0
    ensures QuotedAs(t, price, 0, loan)
  {
    if price * t.ltvLimit > 0 { DerivedBounds(loan * LTV_UNIT, price * t.ltvLimit); }
  }

  lemma BothQuoted(t: Terms, price: nat, collateral: nat, loan: nat)
    requires collateral > 0 && loan > 0
    ensures QuotedAs(t, price, collateral, loan)
  {
    if price > 0 {
      NestedFloor(loan * LTV_UNIT, collateral, price);
      QuotientAtMost(loan * LTV_UNIT, collateral * price, t.ltvLimit);
    }
  }

  lemma DerivedBounds(n: nat, d: nat)
    requires d > 0
    ensures n / d * d <= n < (n / d + 1) * d
  {
    QuotientBounds(n, d);
  }

  /** Any loan within the maximum, drawn or taken at once, has its ratio within the limit. */
  lemma WithinMaxIsWithinLimit(t: Terms, price: nat, collateral: nat, loan: nat)
    requires loan <= MaxLoan(t, price, collateral)
    ensures WithinLimit(t, collateral, loan, price)
  {
    var d := collateral * price;
    MaxLoanIsLargest(t, price, collateral, loan);
    if d == 0 { return; }
    assert d * t.ltvLimit == t.ltvLimit * d && (t.ltvLimit + 1) * d == t.ltvLimit * d + d;
    QuotientAtMost(loan * LTV_UNIT, d, t.ltvLimit);
  }

  /** The explicit route divides by collateral and price in turn; that is the same ratio. */
  lemma ExplicitIsWithinLimit(t: Terms, price: nat, collateral: nat, loan: nat)
    requires collateral > 0 && loan > 0 && CollateralLoan(t, price, collateral, loan).Quoted?
    ensures WithinLimit(t, collateral, loan, price)
  {
    NestedFloor(loan * LTV_UNIT, collateral, price);
  }

  /** Every quote for a request that names its collateral keeps the limit; the route that works
      out the collateral instead rounds it down and may not. */
  lemma QuotesKeepLimit(t: Terms, price: nat, collateral: nat, loan: nat)
    requires collateral > 0
    ensures var q := CollateralLoan(t, price, collateral, loan);
            && (q.Quoted? ==> q.collateral == collateral)
            && (q.Quoted? ==> WithinLimit(t, q.collateral, q.loan, price))
  {
    var q := CollateralLoan(t, price, collateral, loan);
    if q.Quoted? {
      if loan == 0 {
        WithinMaxIsWithinLimit(t, price, q.collateral, q.loan);
      } else {
        ExplicitIsWithinLimit(t, price, collateral, loan);
      }
    }
  }

  /** The ratio of an admitted loan fits its machine words exactly if the worth of its collateral does. */
  lemma RatioFits(t: Terms, price: nat, collateral: nat, loan: nat)
    requires collateral > 0 && price > 0 && t.ltvLimit <= MAX_U64
    requires CollateralLoan(t, price, collateral, loan).Quoted?
    ensures var q := CollateralLoan(t, price, collateral, loan);
            Ltv(q.collateral, q.loan, price).Ok? <==> q.collateral * price <= MAX_BALANCE
  {
    QuotesKeepLimit(t, price, collateral, loan);
    MulMono(1, collateral, price);
    if loan == 0 { MaxLoanFits(t, collateral * price); }
  }

  lemma MaxLoanFits(t: Terms, worth: nat)
    ensures worth * t.ltvLimit / LTV_UNIT * LTV_UNIT <= worth * t.ltvLimit
  {
    QuotientBounds(worth * t.ltvLimit, LTV_UNIT);
  }

  /** A loan of 1 against 2^96 units at a price of 2^48 is admitted, and its ratio cannot be computed. */
  lemma RatioMayNotFit(t: Terms)
    requires t.ltvLimit == 6500
    ensures CollateralLoan(t, 0x1_0000_0000_0000, 0x1_0000_0000_0000_0000_0000_0000, 1).Quoted?
    ensures Ltv(0x1_0000_0000_0000_0000_0000_0000, 1, 0x1_0000_0000_0000) == Overflow
  {
  }

  /** 100 units at a price of 3.3333 per unit and a limit of 65 percent: the collateral comes
      out as 46 units, and the ratio as 65.21 percent. */
  lemma DerivedCollateralMayExceed(t: Terms)
    requires t.ltvLimit == 6500
    ensures CollateralLoan(t, 33333, 0, 100) == Quoted(46, 100)
    ensures Ltv(46, 100, 33333) == Ok(6521)
  {
  }

  lemma QuotientZero(n: nat, d: nat)
    requires d > 0
    ensures n / d == 0 <==> n < d
  {
    QuotientAtMost(n, d, 0);
  }

  lemma DerivedRatio(n: nat, price: nat, limit: nat)
    requires price * limit > 0 && n >= price * limit
    ensures n / (price * limit) * price > 0
    ensures n / (n / (price * limit) * price) <= limit <==> n % (price * limit) < n / (price * limit) * price
    ensures n / (n / (price * limit) * price) < 2 * limit && n / (price * limit) * price <= n
  {
    var d := price * limit;
    var q, r := n / d, n % d;
    assert n == q * d + r;
    QuotientZero(n, d);
    MulMono(1, q, price);
    var e := q * price;
    assert (limit + 1) * e == limit * e + e && limit * e == q * d;
    QuotientAtMost(n, e, limit);
    MulMono(1, q, d);
    assert 2 * limit * e == 2 * (q * d);
    QuotientAtMost(n, e, 2 * limit - 1);
    MulMono(1, limit, e);
  }

  /** What the division throws away, when it works out the collateral, is less than the collateral is worth. */
  ghost predicate RoundsWithin(t: Terms, price: nat, loan: nat, collateral: nat)
  {
    price * t.ltvLimit > 0 && loan * 1_0000_0000 % (price * t.ltvLimit) < collateral * price
  }

  /** Exactly when the route that works out the collateral keeps the limit: when what the division
      throws away is less than the collateral is worth at the price.  It gives no collateral at all for
      loans below one unit of it, and the ratio of any other loan stays below twice the limit. */
  lemma DerivedKeepsLimitWhen(t: Terms, price: nat, loan: nat)
    requires CollateralLoan(t, price, 0, loan).Quoted?
    ensures var collateral := CollateralLoan(t, price, 0, loan).collateral;
            && (collateral == 0 <==> loan * LTV_UNIT < price * t.ltvLimit)
            && (WithinLimit(t, collateral, loan, price) <==> RoundsWithin(t, price, loan, collateral))
            && (collateral > 0 ==> collateral * price > 0 && loan * LTV_UNIT / (collateral * price) < 2 * t.ltvLimit)
  {
    var n, d := loan * LTV_UNIT, price * t.ltvLimit;
    QuotientZero(n, d);
    DerivedWithin(n, price, t.ltvLimit, n / d);
  }

  lemma DerivedWithin(n: nat, price: nat, limit: nat, collateral: nat)
    requires price * limit > 0 && collateral == n / (price * limit)
    ensures collateral == 0 ==> collateral * price == 0
    ensures collateral > 0 ==> collateral * price > 0 && n / (collateral * price) < 2 * limit
    ensures collateral > 0 ==> (n / (collateral * price) <= limit <==> n % (price * limit) < collateral * price)
  {
    QuotientZero(n, price * limit);
    if collateral > 0 { DerivedRatio(n, price, limit); }
  }

  /** Drawable credit is the largest loan less the loan. */
  lemma CreditIsRest(t: Terms, price: nat, l: Loan)
    requires Credit(t, price, l).Ok?
    ensures l.total + Credit(t, price, l).value == MaxLoan(t, price, l.available)
  {
    NestedFloor(l.available * price * t.ltvLimit, LTV_PREC, PRICE_PREC);
  }

  /** Whoever draws up to the credit stays within the limit. */
  lemma DrawKeepsLimit(t: Terms, price: nat, l: Loan, amount: nat)
    requires Credit(t, price, l).Ok? && amount <= Credit(t, price, l).value
    ensures WithinLimit(t, l.available, l.total + amount, price)
  {
    CreditIsRest(t, price, l);
    WithinMaxIsWithinLimit(t, price, l.available, l.total + amount);
  }

  /** An admitted loan is the witness that its package's interest is below the amount: of any amount. */
  lemma AdmittedRateIsLow(p: Package, loan: nat)
    requires p.Interest(loan).Ok? && p.Interest(loan).value < loan
    ensures p.LowRate()
  {
    InterestExact(p, loan);
    InterestBelowAmount(p, loan, p.Interest(loan).value);
  }

  lemma InterestBelow(p: Package, amount: nat)
    requires p.LowRate() && p.Interest(amount).Ok?
    ensures p.Interest(amount).value <= amount
  {
    PartRate(amount, p.terms * 24 * p.hourlyRate);
  }

  lemma PartRate(amount: nat, rate: nat)
    requires rate < INTEREST_RATE_PREC
    ensures amount * rate / INTEREST_RATE_PREC <= amount
  {
    MulMono(rate, INTEREST_RATE_PREC, amount);
    assert rate * amount == amount * rate;
    QuotientAtMost(amount * rate, INTEREST_RATE_PREC, amount);
  }

  /** The penalty on what an auction brought beyond the debt, in units of 10^-4 of it. */
  function AuctionPenalty(t: Terms, leftover: nat): (p: nat)
    requires t.liquidationPenalty <= LTV_PREC
    ensures p <= leftover && PenaltyIs(t, leftover, p)
  {
    MulMono(t.liquidationPenalty, LTV_PREC, leftover);
    assert t.liquidationPenalty * leftover == leftover * t.liquidationPenalty;
    QuotientAtMost(leftover * t.liquidationPenalty, LTV_PREC, leftover);
    QuotientBounds(leftover * t.liquidationPenalty, LTV_PREC);
    Quotient(leftover * t.liquidationPenalty, LTV_PREC)
  }

  ghost predicate PenaltyIs(t: Terms, leftover: nat, p: nat)
  {
    p * 1_0000 <= leftover * t.liquidationPenalty < (p + 1) * 1_0000
  }

  // ---------------------------------------------------------------- a loan's turn in a block

  function CheckHealth(t: Terms, l: Loan, now: nat, price: nat): Checked<Health>
  {
    var ltv := Ltv(l.available, l.total, price);
    match ltv
    case DivisionByZero => DivisionByZero
    case Overflow => Overflow
    case Ok(x) =>
      Ok(if x >= t.liquidation then Liquidating(x)
         else if x >= t.warning then Warning(x)
         else if l.dueExtend <= now then Expired
         else if l.due <= now then Extended
         else Well)
  }

  function Penalty(t: Terms, l: Loan, price: nat): Checked<nat>
  {
    if l.total * PRICE_PREC * t.penaltyRate > MAX_BALANCE then Overflow
    else if price == 0 then DivisionByZero
    else Ok(l.total * PRICE_PREC * t.penaltyRate / LTV_PREC / price)
  }

  function ExpiryInterest(p: Package, l: Loan, price: nat): Checked<nat>
  {
    var i := p.Interest(l.total);
    if !i.Ok? || i.value * PRICE_PREC > MAX_BALANCE then Overflow
    else if price == 0 then DivisionByZero
    else Ok(i.value * PRICE_PREC / price)
  }

  function Fee(t: Terms, p: Package, l: Loan, price: nat): Checked<nat>
  {
    var penalty, interest := Penalty(t, l, price), ExpiryInterest(p, l, price);
    if penalty.DivisionByZero? || interest.DivisionByZero? then DivisionByZero
    else if penalty.Overflow? || interest.Overflow? || penalty.value + interest.value > MAX_BALANCE then Overflow
    else Ok(penalty.value + interest.value)
  }

  /** The loan afterwards, the collateral taken as a fee, and whether it goes into liquidation. */
  datatype Turn = Turn(loan: Loan, fee: nat, seized: bool)

  function Expire(t: Terms, p: Package, l: Loan, now: nat, price: nat): Checked<Turn>
  {
    var fee, dues := Fee(t, p, l, price), p.Dues(now);
    if fee.DivisionByZero? then DivisionByZero
    else if fee.Overflow? || dues.Overflow? then Overflow
    else
      var rest := if fee.value <= l.available then l.available - fee.value else 0;
      var renewed := l.(available := rest, due := dues.value.0, dueExtend := dues.value.1);
      var ltv := Ltv(rest, l.total, price);
      match ltv
      case DivisionByZero => DivisionByZero
      case Overflow => Overflow
      case Ok(x) =>
        Ok(if x >= t.liquidation then Turn(renewed.(status := Liquidating(x)), fee.value, true)
           else if x >= t.warning then Turn(renewed.(status := Warning(x)), fee.value, false)
           else Turn(renewed.(status := Well), fee.value, false))
  }

  /** What a block does to a loan that is not being liquidated yet. */
  function TakeTurn(t: Terms, p: Package, l: Loan, now: nat, price: nat): Checked<Turn>
  {
    var health := CheckHealth(t, l, now, price);
    match health
    case DivisionByZero => DivisionByZero
    case Overflow => Overflow
    case Ok(Expired) => Expire(t, p, l, now, price)
    case Ok(Well) => Ok(Turn(l, 0, false))
    case Ok(h) => Ok(Turn(l.(status := h), 0, h.Liquidating?))
  }

  /** Packages whose expiry can always be paid for: fees of the loan, at the ratio where the
      warning starts, do not exceed the collateral. */
  predicate Affordable(t: Terms, p: Package)
  {
    t.warning * (1_0000 * t.penaltyRate + p.terms * 24 * p.hourlyRate) <= 1_0000_0000_0000
  }

  /** What an expired loan pays, in units of the collateral at a price in units of 10^-4: a penalty on what was
      borrowed, its rate in units of 10^-4, and the interest of another term. */
  ghost predicate FeeParts(t: Terms, p: Package, l: Loan, price: nat, pen: nat, i: nat, fine: nat)
  {
    && pen * price <= l.total * t.penaltyRate < (pen + 1) * price
    && InterestIs(p, l.total, i) && fine * price <= i * 1_0000 < (fine + 1) * price
  }

  /** No number on the way to the fees is too large. */
  ghost predicate FeesFit(t: Terms, p: Package, l: Loan, pen: nat, i: nat, fine: nat)
  {
    && l.total * 1_0000 * t.penaltyRate <= MAX_BALANCE && l.total * (p.terms * 24 * p.hourlyRate) <= MAX_BALANCE
    && i * 1_0000 <= MAX_BALANCE && pen + fine <= MAX_BALANCE
  }

  lemma PenaltyExact(t: Terms, l: Loan, price: nat)
    requires price > 0
    ensures Penalty(t, l, price).Ok? <==> l.total * 1_0000 * t.penaltyRate <= MAX_BALANCE
    ensures Penalty(t, l, price).Ok? ==> Penalty(t, l, price).value == l.total * t.penaltyRate / price
    ensures !Penalty(t, l, price).DivisionByZero?
  {
    assert l.total * PRICE_PREC * t.penaltyRate == (l.total * t.penaltyRate) * LTV_PREC;
    QuotientIs(l.total * PRICE_PREC * t.penaltyRate, LTV_PREC, l.total * t.penaltyRate);
  }

  /** The fees, and when they can be computed. */
  lemma FeeIs(t: Terms, p: Package, l: Loan, price: nat) returns (pen: nat, i: nat, fine: nat)
    requires price > 0
    ensures FeeParts(t, p, l, price, pen, i, fine)
    ensures Fee(t, p, l, price).Ok? <==> FeesFit(t, p, l, pen, i, fine)
    ensures Fee(t, p, l, price).Ok? ==> Fee(t, p, l, price).value == pen + fine
  {
    InterestExact(p, l.total);
    PenaltyExact(t, l, price);
    pen, i := l.total * t.penaltyRate / price, l.total * (p.terms * 24 * p.hourlyRate) / INTEREST_RATE_PREC;
    fine := i * PRICE_PREC / price;
    PartsAre(t, p, l, price, pen, i, fine);
    hide FeeParts, Penalty;
  }

  lemma PartsAre(t: Terms, p: Package, l: Loan, price: nat, pen: nat, i: nat, fine: nat)
    requires price > 0 && pen == l.total * t.penaltyRate / price && fine == i * PRICE_PREC / price
    requires i == l.total * (p.terms * 24 * p.hourlyRate) / INTEREST_RATE_PREC
    ensures FeeParts(t, p, l, price, pen, i, fine)
  {
    QuotientBounds(l.total * t.penaltyRate, price);
    QuotientBounds(l.total * (p.terms * 24 * p.hourlyRate), INTEREST_RATE_PREC);
    QuotientBounds(i * PRICE_PREC, price);
  }

  lemma PartsAreUnique(t: Terms, p: Package, l: Loan, price: nat, pen: nat, i: nat, fine: nat, pen': nat, i': nat,
                       fine': nat)
    requires FeeParts(t, p, l, price, pen, i, fine) && FeeParts(t, p, l, price, pen', i', fine')
    ensures pen == pen' && i == i' && fine == fine'
  {
    OneQuotient(l.total * t.penaltyRate, price, pen, pen');
    OneQuotient(l.total * (p.terms * 24 * p.hourlyRate), 1_0000_0000, i, i');
    OneQuotient(i * 1_0000, price, fine, fine');
  }

  lemma OneQuotient(n: nat, d: nat, q: nat, q': nat)
    requires q * d <= n < (q + 1) * d && q' * d <= n < (q' + 1) * d
    ensures q == q'
  {
    if q < q' { MulMono(q + 1, q', d); }
    if q' < q { MulMono(q' + 1, q, d); }
  }

  /** Both fees together, scaled up: (10^4 * penalty rate + interest rate) times the loan. */
  lemma FeeBound(t: Terms, p: Package, l: Loan, price: nat, pen: nat, i: nat, fine: nat)
    requires FeeParts(t, p, l, price, pen, i, fine)
    ensures (pen + fine) * (1_0000 * price) <= l.total * (1_0000 * t.penaltyRate + p.terms * 24 * p.hourlyRate)
  {
    var rate := p.terms * 24 * p.hourlyRate;
    FeeBoundArithmetic(pen, fine, i, price, l.total * t.penaltyRate, l.total * rate);
    assert l.total * (1_0000 * t.penaltyRate + rate) == 1_0000 * (l.total * t.penaltyRate) + l.total * rate;
  }

  lemma FeeBoundArithmetic(pen: nat, fine: nat, i: nat, price: nat, a: nat, b: nat)
    requires pen * price <= a && fine * price <= i * PRICE_PREC && i * INTEREST_RATE_PREC <= b
    ensures (pen + fine) * (PRICE_PREC * price) <= PRICE_PREC * a + b
  {
    assert (pen + fine) * (PRICE_PREC * price) == PRICE_PREC * (pen * price) + PRICE_PREC * (fine * price);
    assert PRICE_PREC * (i * PRICE_PREC) == i * INTEREST_RATE_PREC;
  }

  /** Below the warning ratio the fees of an affordable package stay strictly below the collateral. */
  lemma FeeBelowCollateral(t: Terms, p: Package, l: Loan, price: nat, pen: nat, i: nat, fine: nat)
    requires Affordable(t, p) && FeeParts(t, p, l, price, pen, i, fine)
    requires Below(l, price, t.warning) && l.available > 0 && price > 0
    ensures pen + fine < l.available
  {
    var rates := 1_0000 * t.penaltyRate + p.terms * 24 * p.hourlyRate;
    FeeBound(t, p, l, price, pen, i, fine);
    FeeCompare(pen + fine, l.available, l.total, price, t.warning, rates);
  }

  lemma FeeCompare(fee: nat, collateral: nat, loan: nat, price: nat, warning: nat, rates: nat)
    requires fee * (PRICE_PREC * price) <= loan * rates && warning * rates <= 1_0000_0000_0000
    requires loan * LTV_UNIT < warning * (collateral * price) && collateral > 0 && price > 0
    ensures fee < collateral
  {
    MulMono(1, collateral, price);
    MulMono(loan * LTV_UNIT + 1, warning * (collateral * price), rates);
    assert (loan * LTV_UNIT + 1) * rates == LTV_UNIT * (loan * rates) + rates;
    assert warning * (collateral * price) * rates == (warning * rates) * (collateral * price);
    MulMono(warning * rates, 1_0000_0000_0000, collateral * price);
    assert LTV_UNIT * (fee * (PRICE_PREC * price)) == 1_0000_0000_0000 * (fee * price);
    assert rates == 0 ==> loan * rates == 0;
    assert fee * price < collateral * price;
    Cancel(fee, collateral, price);
  }

  /** Nothing a block divides by is zero: the price, the worth of the collateral, and the worth of what the fees
      leave of it. */
  ghost predicate Divisible(t: Terms, p: Package, l: Loan, now: nat, price: nat)
  {
    && price > 0 && l.available > 0
    && (HasExpired(t, l, now, price) ==>
          forall pen: nat, i: nat, fine: nat :: FeeParts(t, p, l, price, pen, i, fine) ==> pen + fine < l.available)
  }

  /** The division that could go wrong in a block never does: a loan with collateral, in an
      affordable package, at a positive price, takes its turn without dividing by zero. */
  lemma NoDivisionByZero(t: Terms, p: Package, l: Loan, now: nat, price: nat)
    requires Affordable(t, p) && l.available > 0 && price > 0
    ensures Divisible(t, p, l, now, price) && !TakeTurn(t, p, l, now, price).DivisionByZero?
  {
    forall pen: nat, i: nat, fine: nat | HasExpired(t, l, now, price) && FeeParts(t, p, l, price, pen, i, fine)
      ensures pen + fine < l.available
    {
      FeeBelowCollateral(t, p, l, price, pen, i, fine);
    }
    MulMono(1, l.available, price);
    RatioExact(l, price);
    DivisibleTurns(t, p, l, now, price);
  }

  lemma DivisibleTurns(t: Terms, p: Package, l: Loan, now: nat, price: nat)
    requires Divisible(t, p, l, now, price) && l.available * price > 0
    ensures !TakeTurn(t, p, l, now, price).DivisionByZero?
  {
    RatioExact(l, price);
    var pen, i, fine := FeeIs(t, p, l, price);
    if HasExpired(t, l, now, price) { MulMono(1, l.available - pen - fine, price); }
    hide HasExpired, FeeParts, FeesFit, HasRatio, RatioIs;
  }

  /** What holds of a loan after its turn. */
  lemma TurnLaws(t: Terms, p: Package, l: Loan, now: nat, price: nat)
    requires TakeTurn(t, p, l, now, price).Ok?
    ensures var u := TakeTurn(t, p, l, now, price).value;
            && u.loan.available + u.fee == l.available && u.loan.available > 0
            && u.loan.total == l.total && u.loan.who == l.who && u.loan.package == l.package
            && Ltv(u.loan.available, u.loan.total, price).Ok?
            && (u.seized <==> Ltv(u.loan.available, u.loan.total, price).value >= t.liquidation)
            && (u.seized ==> u.loan.status.Liquidating?)
            && (!u.seized && u.loan.status.Liquidating? ==> u.loan == l)
            && (Ltv(l.available, l.total, price).value < Min(t.liquidation, t.warning) ==> u.loan.dueExtend > now)
  {
  }

  // ---------------------------------------------------------------- the turn in numbers

  /** The ratio of a loan to the worth of its collateral, in units of 10^-4, is below a threshold. */
  ghost predicate Below(l: Loan, price: nat, threshold: nat)
  {
    l.total * 1_0000_0000 < threshold * (l.available * price)
  }

  ghost predicate RatioIs(l: Loan, price: nat, x: nat)
  {
    x * (l.available * price) <= l.total * 1_0000_0000 < (x + 1) * (l.available * price)
  }

  /** The ratio has a value, and all numbers on the way to it fit. */
  ghost predicate HasRatio(l: Loan, price: nat)
  {
    && 0 < l.available * price <= MAX_BALANCE && l.total * 1_0000_0000 <= MAX_BALANCE
    && Below(l, price, MAX_U64 + 1)
  }

  lemma RatioExact(l: Loan, price: nat)
    ensures Ltv(l.available, l.total, price).Ok? <==> HasRatio(l, price)
    ensures Ltv(l.available, l.total, price).Ok? ==> RatioIs(l, price, Ltv(l.available, l.total, price).value)
    ensures Ltv(l.available, l.total, price).Ok? ==>
      forall x: nat :: Below(l, price, x) <==> Ltv(l.available, l.total, price).value < x
  {
    var n, d := l.total * LTV_UNIT, l.available * price;
    if d > 0 {
      QuotientBounds(n, d);
      assert n / d * d + d == (n / d + 1) * d;
      forall x: nat ensures Below(l, price, x) <==> Quotient(n, d) < x { QuotientBelow(n, d, x); }
    }
    hide Quotient, Below;
  }

  lemma QuotientBelow(n: nat, d: nat, x: nat)
    requires d > 0
    ensures n / d < x <==> n < x * d
  {
    if x > 0 { QuotientAtMost(n, d, x - 1); }
  }

  /** An expired loan: two days past its due date, and below both thresholds. */
  ghost predicate HasExpired(t: Terms, l: Loan, now: nat, price: nat)
  {
    l.dueExtend <= now && Below(l, price, t.liquidation) && Below(l, price, t.warning)
  }

  /** The dates of a loan that begins now: its term in days, and two days more; times are milliseconds. */
  ghost predicate DuesAre(p: Package, now: nat, due: nat, extend: nat)
  {
    due == now + p.terms * 86_400_000 && extend == due + 172_800_000
  }

  /** An expired loan pays its fees out of its collateral, and begins anew. */
  ghost predicate Renewed(t: Terms, p: Package, l: Loan, m: Loan, now: nat, price: nat)
  {
    && DuesAre(p, now, m.due, m.dueExtend)
    && m == l.(available := m.available, due := m.due, dueExtend := m.dueExtend, status := m.status)
    && exists pen: nat, i: nat, fine: nat ::
         FeeParts(t, p, l, price, pen, i, fine) && m.available + pen + fine == l.available
  }

  /** What a block makes of a loan that was not in liquidation: only an expired one changes in anything but its
      status; the status says on which side of the thresholds it is, with the ratio, or that it is
      overdue; and it is seized from the liquidation threshold on. */
  ghost predicate Watched(t: Terms, p: Package, l: Loan, m: Loan, seized: bool, now: nat, price: nat)
  {
    && HasRatio(m, price) && (seized <==> !Below(m, price, t.liquidation))
    && (if HasExpired(t, l, now, price) then Renewed(t, p, l, m, now, price) else m == l.(status := m.status))
    && (if seized then m.status.Liquidating? && RatioIs(m, price, m.status.ltv)
        else if !Below(m, price, t.warning) then m.status.Warning? && RatioIs(m, price, m.status.ltv)
        else m.status == if HasExpired(t, l, now, price) then Well else if l.due <= now then Extended else l.status)
  }

  /** The loans a block can deal with: all numbers on the way fit, and the fees leave some collateral. */
  ghost predicate Manageable(t: Terms, p: Package, l: Loan, now: nat, price: nat)
  {
    && HasRatio(l, price)
    && (HasExpired(t, l, now, price) ==>
          && now + p.terms * 86_400_000 + 172_800_000 <= MAX_U64
          && exists pen: nat, i: nat, fine: nat ::
               FeeParts(t, p, l, price, pen, i, fine) && FeesFit(t, p, l, pen, i, fine) && pen + fine < l.available
               && HasRatio(l.(available := l.available - pen - fine), price))
  }

  lemma DuesExact(p: Package, now: nat)
    ensures p.Dues(now).Ok? <==> now + p.terms * 86_400_000 + 172_800_000 <= MAX_U64
    ensures p.Dues(now).Ok? ==> DuesAre(p, now, p.Dues(now).value.0, p.Dues(now).value.1)
  {
  }

  /** A turn comes to an end exactly for the loans a block can deal with, and does what is said of them. */
  lemma TurnIsWatched(t: Terms, p: Package, l: Loan, now: nat, price: nat)
    ensures TakeTurn(t, p, l, now, price).Ok? <==> Manageable(t, p, l, now, price)
    ensures TakeTurn(t, p, l, now, price).Ok? ==>
      var u := TakeTurn(t, p, l, now, price).value;
      Watched(t, p, l, u.loan, u.seized, now, price)
  {
    RatioExact(l, price);
    if HasRatio(l, price) && HasExpired(t, l, now, price) {
      ExpiryIsWatched(t, p, l, now, price);
    } else {
      hide Ltv, HasRatio, Below, RatioIs, Expire;
      SameRatio(l, price);
    }
  }

  /** Which status a loan has makes no difference to its ratio. */
  lemma SameRatio(l: Loan, price: nat)
    ensures forall h :: HasRatio(l.(status := h), price) <==> HasRatio(l, price)
    ensures forall h, x: nat :: Below(l.(status := h), price, x) <==> Below(l, price, x)
    ensures forall h, x: nat :: RatioIs(l.(status := h), price, x) <==> RatioIs(l, price, x)
  {
  }

  lemma ExpiryIsWatched(t: Terms, p: Package, l: Loan, now: nat, price: nat)
    requires HasRatio(l, price) && HasExpired(t, l, now, price)
    ensures TakeTurn(t, p, l, now, price) == Expire(t, p, l, now, price)
    ensures Expire(t, p, l, now, price).Ok? <==> Manageable(t, p, l, now, price)
    ensures Expire(t, p, l, now, price).Ok? ==>
      var u := Expire(t, p, l, now, price).value;
      Watched(t, p, l, u.loan, u.seized, now, price)
  {
    RatioExact(l, price);
    var pen, i, fine := FeeIs(t, p, l, price);
    ExpiryEnds(t, p, l, now, price, pen, i, fine);
    ExpiryManaged(t, p, l, now, price, pen, i, fine);
    if Expire(t, p, l, now, price).Ok? { ExpiryRenews(t, p, l, now, price, pen, i, fine); }
    hide *;
    TurnExpires(t, p, l, now, price);
  }

  lemma TurnExpires(t: Terms, p: Package, l: Loan, now: nat, price: nat)
    requires HasRatio(l, price) && HasExpired(t, l, now, price)
    ensures TakeTurn(t, p, l, now, price) == Expire(t, p, l, now, price)
  {
    RatioExact(l, price);
    hide Ltv, HasRatio, Expire;
  }

  /** The loan an expired one becomes, before its status is set. */
  ghost function Rest(l: Loan, pen: nat, fine: nat): Loan
  {
    l.(available := if pen + fine <= l.available then l.available - pen - fine else 0)
  }

  lemma ExpiryEnds(t: Terms, p: Package, l: Loan, now: nat, price: nat, pen: nat, i: nat, fine: nat)
    requires Fee(t, p, l, price).Ok? <==> FeesFit(t, p, l, pen, i, fine)
    requires Fee(t, p, l, price).Ok? ==> Fee(t, p, l, price).value == pen + fine
    ensures Expire(t, p, l, now, price).Ok? <==>
              FeesFit(t, p, l, pen, i, fine) && p.Dues(now).Ok? && HasRatio(Rest(l, pen, fine), price)
  {
    RatioExact(Rest(l, pen, fine), price);
    hide Ltv, HasRatio, Below, RatioIs, FeesFit, Fee, Package.Dues;
  }

  lemma ExpiryManaged(t: Terms, p: Package, l: Loan, now: nat, price: nat, pen: nat, i: nat, fine: nat)
    requires HasRatio(l, price) && HasExpired(t, l, now, price) && FeeParts(t, p, l, price, pen, i, fine)
    ensures Manageable(t, p, l, now, price) <==>
              FeesFit(t, p, l, pen, i, fine) && p.Dues(now).Ok? && HasRatio(Rest(l, pen, fine), price)
  {
    DuesExact(p, now);
    forall pen': nat, i': nat, fine': nat | FeeParts(t, p, l, price, pen', i', fine')
      ensures pen' == pen && i' == i && fine' == fine
    {
      PartsAreUnique(t, p, l, price, pen, i, fine, pen', i', fine');
    }
    assert pen + fine >= l.available ==> Rest(l, pen, fine).available == 0;
    assert pen + fine >= l.available ==> !HasRatio(Rest(l, pen, fine), price);
    hide Below, FeeParts, FeesFit, Package.Dues, HasRatio;
  }

  lemma ExpiryRenews(t: Terms, p: Package, l: Loan, now: nat, price: nat, pen: nat, i: nat, fine: nat)
    requires HasExpired(t, l, now, price) && FeeParts(t, p, l, price, pen, i, fine)
    requires Expire(t, p, l, now, price).Ok? && Fee(t, p, l, price).value == pen + fine
    requires HasRatio(Rest(l, pen, fine), price)
    ensures var u := Expire(t, p, l, now, price).value;
            Watched(t, p, l, u.loan, u.seized, now, price)
  {
    DuesExact(p, now);
    assert pen + fine >= l.available ==> !HasRatio(Rest(l, pen, fine), price);
    var u, dues := Expire(t, p, l, now, price).value, p.Dues(now).value;
    var m := Rest(l, pen, fine).(due := dues.0, dueExtend := dues.1);
    assert u.loan == m.(status := u.loan.status);
    RatioExact(m, price);
    SameRatio(m, price);
    hide Ltv, Below, RatioIs, FeeParts, Fee, Package.Dues, DuesAre;
  }
}
