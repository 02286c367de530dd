/** rio-saving's share release packs: an amount split into one payout per phase. */
module VestingPacks {
  import opened Primitives

  /** `termsLeft` payouts of `perTerm` each. */
  datatype SharePackage = SharePackage(termsTotal: nat, termsLeft: nat, perTerm: nat)
  {
    function Total(): nat { termsLeft * perTerm }
  }

  /** The locked shares one account holds for one phase: equal major payouts first,
      then at most one smaller minor payout that levels the rounding. */
  datatype Pack = Pack(
    asset: AssetId,
    owner: AccountId,
    phase: nat,
    empty: bool,
    major: SharePackage,
    minor: Option<SharePackage>)
  {
    function TermsLeft(): nat { major.termsLeft + if minor.Some? then minor.value.termsLeft else 0 }

    function Total(): nat
    {
      if empty then 0 else major.Total() + if minor.Some? then minor.value.Total() else 0
    }

    /** One payout: the pack afterwards, and the amount if there was one left. */
    function Release(): (Pack, Option<nat>)
    {
      if empty then (this, None)
      else if major.termsLeft > 0 then
        var m := major.(termsLeft := major.termsLeft - 1);
        (this.(major := m, empty := m.termsLeft == 0 && (minor.None? || minor.value.termsLeft == 0)),
            Some(major.perTerm))
      else if minor.Some? && minor.value.termsLeft > 0 then
        var m := minor.value.(termsLeft := minor.value.termsLeft - 1);
        (this.(minor := Some(m), empty := m.termsLeft == 0), Some(minor.value.perTerm))
      else (this.(empty := true), None)
    }

    function After(): Pack { Release().0 }

    function Paid(): nat { if Release().1.Some? then Release().1.value else 0 }

    /** What every pack in storage looks like. */
    ghost predicate Tidy()
    {
      && (empty <==> TermsLeft() == 0)
      && (minor.Some? ==> minor.value.termsLeft <= 1 && minor.value.perTerm <= major.perTerm)
      && (minor.Some? && major.termsLeft > 0 ==> minor.value.termsLeft == 1)
    }

    lemma ReleaseTidy()
      requires Tidy()
      ensures After().Tidy() && After().asset == asset && After().owner == owner && After().phase == phase
      ensures After().major.termsTotal == major.termsTotal
      ensures Release().1.Some? <==> !empty
      ensures After().TermsLeft() == if empty then 0 else TermsLeft() - 1
      ensures After().Total() + Paid() == Total()
      ensures After().Paid() <= Paid()
      ensures Total() <= Paid() * TermsLeft()
    {
      if !empty && major.termsLeft > 0 {
        assert (major.termsLeft - 1) * major.perTerm == major.termsLeft * major.perTerm - major.perTerm;
        if minor.Some? {
          assert minor.value.Total() <= major.perTerm;
          assert (major.termsLeft + 1) * major.perTerm == major.termsLeft * major.perTerm + major.perTerm;
        }
      }
    }

    /** Every payout the pack will make, in order. */
    ghost function Payouts(): seq<nat>
      requires Tidy()
      decreases TermsLeft()
    {
      ReleaseTidy();
      if empty then [] else [Paid()] + After().Payouts()
    }
  }

  ghost predicate NonIncreasing(s: seq<nat>) { forall i, j :: 0 <= i <= j < |s| ==> s[j] <= s[i] }

  /** A tidy pack pays its total out in exactly as many payouts as it has terms left: the equal ones first, then
      the smaller one. */
  lemma {:induction false} PayoutsExact(p: Pack)
    requires p.Tidy()
    ensures |p.Payouts()| == p.TermsLeft()
    ensures SumSeq(p.Payouts()) == p.Total()
    ensures NonIncreasing(p.Payouts())
    ensures p.Payouts() != [] ==> p.Payouts()[0] == p.Paid()
    ensures forall i :: 0 <= i < |p.Payouts()| ==>
              p.Payouts()[i] == if i < p.major.termsLeft then p.major.perTerm else p.minor.value.perTerm
    decreases p.TermsLeft()
  {
    p.ReleaseTidy();
    if !p.empty {
      PayoutsExact(p.After());
      var rest := p.After().Payouts();
      assert p.Payouts() == [p.Paid()] + rest;
      assert p.Payouts()[1..] == rest;
    }
  }

  // ---------------------------------------------------------------- creating a pack

  function Portion(balance: nat, count: nat): nat
    requires count >= 1
  {
    if count == 1 then balance else (balance + (count - 1)) / count
  }

  /** A pack of `count` payouts; `None` where the code's 128-bit arithmetic does not fit. */
  function CreateSharePack(owner: AccountId, asset: AssetId, phase: nat, balance: nat, count: nat): Option<Pack>
    requires count >= 1
  {
    var portion := Portion(balance, count);
    var covered := portion * count;
    var exact := Pack(asset, owner, phase, false, SharePackage(count, count - 1, portion), None);
    if balance + (count - 1) > MAX_BALANCE || covered > MAX_BALANCE then None
    else if balance == covered then Some(exact.(major := SharePackage(count, count, portion)))
    else if balance > covered then Some(exact.(minor := Some(SharePackage(1, 1, balance - covered))))
    else if covered - balance > portion then None
    else Some(exact.(minor := Some(SharePackage(1, 1, portion - (covered - balance)))))
  }

  /** Nothing but the 128-bit additions and products stands in the way of a split. */
  predicate SplitFits(balance: nat, count: nat)
    requires count >= 1
  {
    balance + (count - 1) <= MAX_BALANCE && Portion(balance, count) * count <= MAX_BALANCE
  }

  /** `balance` has enough whole payouts for the last one not to go below zero. */
  predicate SplitsEvenly(balance: nat, count: nat)
    requires count >= 1
  {
    balance % count == 0 || balance / count + balance % count >= count - 1
  }

  /** Rounding up: the portion is the ceiling, so `count` portions overshoot by count - remainder. */
  lemma PortionIsCeiling(balance: nat, count: nat)
    requires count >= 1
    ensures var q, r := balance / count, balance % count;
            if r == 0 then Portion(balance, count) == q && Portion(balance, count) * count == balance
            else Portion(balance, count) == q + 1 && Portion(balance, count) * count - balance == count - r
  {
    var q, r := balance / count, balance % count;
    assert balance == q * count + r;
    if count > 1 {
      var n := balance + (count - 1);
      if r == 0 {
        QuotientIs(n, count, q);
      } else {
        assert (q + 1) * count == q * count + count;
        QuotientIs(n, count, q + 1);
      }
    }
  }

  lemma SmallSplitFits(balance: nat, count: nat)
    requires count >= 1 && balance + (count - 1) <= MAX_BALANCE
    ensures SplitFits(balance, count)
  {
    PortionIsCeiling(balance, count);
  }

  /** Pack splitting is exact exactly when the amount splits evenly: then the pack is
      worth the amount and has `count` payouts left; otherwise the last payout
      underflows and there is no pack. */
  lemma SplitExact(owner: AccountId, asset: AssetId, phase: nat, balance: nat, count: nat)
    requires count >= 1 && SplitFits(balance, count)
    ensures var p := CreateSharePack(owner, asset, phase, balance, count);
            && (p.Some? <==> SplitsEvenly(balance, count))
            && (p.Some? ==>
                  && p.value.Tidy() && p.value.Total() == balance && p.value.TermsLeft() == count
                  && |p.value.Payouts()| == count && SumSeq(p.value.Payouts()) == balance
                  && NonIncreasing(p.value.Payouts())
                  && forall i :: 0 <= i < count - 1 ==> p.value.Payouts()[i] == Portion(balance, count))
  {
    PortionIsCeiling(balance, count);
    var portion := Portion(balance, count);
    var p := CreateSharePack(owner, asset, phase, balance, count);
    if p.Some? {
      if balance != portion * count {
        assert (count - 1) * portion == count * portion - portion;
      }
      PayoutsExact(p.value);
    }
  }

  lemma CreatedPack(owner: AccountId, asset: AssetId, phase: nat, balance: nat, count: nat)
    requires count >= 1 && CreateSharePack(owner, asset, phase, balance, count).Some?
    ensures var p := CreateSharePack(owner, asset, phase, balance, count).value;
            && p.owner == owner && p.asset == asset && p.phase == phase && !p.empty
            && p.major.termsTotal == count && p.Paid() == Portion(balance, count)
  {
    PortionIsCeiling(balance, count);
  }

  /** A pack made from (count - 1)^2 or more always splits evenly. */
  lemma LargeAmountsSplit(balance: nat, count: nat)
    requires count >= 1 && balance >= (count - 1) * (count - 1)
    ensures SplitsEvenly(balance, count)
  {
    var q, r := balance / count, balance % count;
    assert balance == q * count + r;
    var c := count - 1;
    assert q * count == q * c + q;
    assert c * c == (c - 1) * c + c;
    if q < c - 1 { MulMono(q + 1, c - 1, count); }
  }

  /** What wrapping 128-bit arithmetic would store instead: the pack still adds up to the
      amount modulo 2^128, but its last payout is within `count` of 2^128. */
  lemma UnevenSplitWraps(balance: nat, count: nat)
    requires count >= 1 && SplitFits(balance, count) && !SplitsEvenly(balance, count)
    ensures var portion := Portion(balance, count);
            var last := (portion - (portion * count - balance)) % (MAX_BALANCE + 1);
            && MAX_BALANCE + 1 - count < last <= MAX_BALANCE
            && ((count - 1) * portion + last) % (MAX_BALANCE + 1) == balance
  {
    PortionIsCeiling(balance, count);
    var portion := Portion(balance, count);
    var q, r := balance / count, balance % count;
    var x := portion - (portion * count - balance);
    assert x == q + 1 - (count - r) && x < 0 && x > 0 - count;
    var m := MAX_BALANCE + 1;
    assert count <= m;
    assert x % m == x + m;
    assert (count - 1) * portion == count * portion - portion;
    assert (count - 1) * portion + (x + m) == balance + m;
  }

  /** The bound behind every redemption: if what is locked is at most the k/n share of `s`,
      one payout later it is at most the (k-1)/n share. */
  lemma ReleaseKeepsShare(p: Pack, s: nat, n: nat)
    requires p.Tidy() && !p.empty && p.Total() * n <= s * p.TermsLeft()
    ensures p.After().Total() * n <= s * (p.TermsLeft() - 1)
  {
    p.ReleaseTidy();
    ShareAfterPayout(p.Total(), p.Paid(), p.TermsLeft(), n, s);
  }

  lemma ShareAfterPayout(u: nat, paid: nat, k: nat, n: nat, s: nat)
    requires k >= 1 && paid <= u <= paid * k && u * n <= s * k
    ensures (u - paid) * n <= s * (k - 1)
  {
    assert (u - paid) * k == u * k - paid * k;
    assert u * (k - 1) == u * k - u;
    ScaleBound(u - paid, u, k, n, s);
  }

  lemma ScaleBound(u': nat, u: nat, k: nat, n: nat, s: nat)
    requires k >= 1 && u' * k <= u * (k - 1) && u * n <= s * k
    ensures u' * n <= s * (k - 1)
  {
    assert (u' * n) * k == (u' * k) * n;
    MulMono(u' * k, u * (k - 1), n);
    assert (u * (k - 1)) * n == (u * n) * (k - 1);
    MulMono(u * n, s * k, k - 1);
    assert (s * k) * (k - 1) == (s * (k - 1)) * k;
    if u' * n > s * (k - 1) { MulMono(s * (k - 1) + 1, u' * n, k); }
  }

  /** The share of a fresh stake that stays locked is at most the part due later. */
  lemma FreshStakeShare(b: nat, left: nat)
    requires left >= 1
    ensures Portion(b, left) <= b
    ensures (b - Portion(b, left)) * left <= b * (left - 1)
  {
    PortionBelow(b, left);
    hide Portion;
    assert b * left == b * (left - 1) + b;
    assert (b - Portion(b, left)) * left == b * left - Portion(b, left) * left;
  }

  lemma PortionBelow(b: nat, left: nat)
    requires left >= 1
    ensures Portion(b, left) <= b <= Portion(b, left) * left
  {
    PortionIsCeiling(b, left);
    var q, r := b / left, b % left;
    assert b == q * left + r;
    MulMono(1, left, q);
  }

  /** What is left of an even split after its first payout splits evenly again. */
  lemma RestSplits(b: nat, left: nat)
    requires left >= 2 && SplitsEvenly(b, left)
    ensures Portion(b, left) <= b && SplitsEvenly(b - Portion(b, left), left - 1)
  {
    PortionIsCeiling(b, left);
    PortionBelow(b, left);
    hide Portion;
    RestSplitsAt(b, left, b / left, b % left, Portion(b, left));
  }

  lemma RestSplitsAt(b: nat, left: nat, q: nat, r: nat, portion: nat)
    requires left >= 2 && b == q * left + r && r < left && portion <= b
    requires portion == (if r == 0 then q else q + 1) && (r == 0 || q + r >= left - 1)
    ensures SplitsEvenly(b - portion, left - 1)
  {
    OneTermLess(q, left);
    RemainderIs(b - portion, left - 1, q, if r == 0 then 0 else r - 1);
  }

  lemma OneTermLess(q: nat, left: nat)
    requires left >= 1
    ensures q * left == q * (left - 1) + q
  {
  }

  lemma RemainderIs(b: nat, n: nat, q: nat, r: nat)
    requires r < n && b == q * n + r
    ensures b / n == q && b % n == r
  {
    QuotientIs(b, n, q);
  }

  lemma SquareMono(m: nat, n: nat)
    requires m <= n
    ensures m * m <= n * n
  {
    MulMono(m, n, m);
    MulMono(m, n, n);
  }

  lemma RestTimesCount(b: nat, m: nat)
    ensures Portion(b, m + 1) <= b
    ensures (b - Portion(b, m + 1)) * (m + 1) >= b * m - m
  {
    PortionIsCeiling(b, m + 1);
    FreshStakeShare(b, m + 1);
    assert Portion(b, m + 1) * (m + 1) <= b + m;
    assert (b - Portion(b, m + 1)) * (m + 1) == b * (m + 1) - Portion(b, m + 1) * (m + 1);
    assert b * (m + 1) == b * m + b;
  }

  lemma CubeStep(b: nat, m: nat)
    requires b >= m * m
    ensures b * m - m >= (m * m - m) * (m + 1)
  {
    MulMono(m * m, b, m);
    assert (m * m - m) * (m + 1) == (m * m - m) * m + (m * m - m);
    assert (m * m - m) * m == m * m * m - m * m;
  }

  /** b >= m^2 split into m + 1: what is left after the first payout is at least m^2 - m. */
  lemma RestIsLarge(b: nat, m: nat)
    requires b >= m * m
    ensures Portion(b, m + 1) <= b && b - Portion(b, m + 1) >= m * m - m
  {
    RestTimesCount(b, m);
    CubeStep(b, m);
    MulCancel(m * m - m, b - Portion(b, m + 1), m + 1);
  }

  /** A fresh stake worth at least (n - 1)^2 shares splits evenly, and so does what is left
      of it, alone or on top of older locked shares, after the first payout. */
  lemma FreshStakeSplits(b: nat, left: nat, n: nat, older: nat)
    requires 2 <= left <= n && b >= (n - 1) * (n - 1)
    ensures Portion(b, left) <= b
    ensures SplitsEvenly(b, left)
    ensures SplitsEvenly(older + (b - Portion(b, left)), left - 1)
  {
    var m := left - 1;
    SquareMono(m, n - 1);
    LargeAmountsSplit(b, left);
    RestIsLarge(b, m);
    assert m * m - m >= (m - 1) * (m - 1) by { assert (m - 1) * (m - 1) == m * m - 2 * m + 1; }
    LargeAmountsSplit(older + (b - Portion(b, left)), m);
  }
}
