/** The way out of rio-saving: an account whose shares still cover its IOUs can hand in all
    IOUs of any phase, whenever it likes. */
module RoundTrip {
  import opened Primitives
  import opened Books
  import opened VestingPacks
  import opened PackLists
  import opened SavingModel
  import opened SavingLaws
  import opened RedeemLaws
  import opened DispatchLaws

  /** Locked shares per phase. */
  ghost function LockedByPhase(c: Config, l: seq<Pack>): seq<int>
  {
    seq(c.N(), i requires 0 <= i < c.N() => PhaseTotal(l, c.share, i + 1))
  }

  lemma {:induction false} SumOne(xs: seq<int>, ys: seq<int>, p: nat, x: int, k: nat)
    requires k <= |xs| == |ys| && p >= 1
    requires forall i :: 0 <= i < k ==> ys[i] == xs[i] + if i + 1 == p then x else 0
    ensures SumInts(ys, k) == SumInts(xs, k) + if p <= k then x else 0
  {
    if k > 0 { SumOne(xs, ys, p, x, k - 1); }
  }

  lemma {:induction false} SumZero(xs: seq<int>, k: nat)
    requires k <= |xs| && forall i :: 0 <= i < k ==> xs[i] == 0
    ensures SumInts(xs, k) == 0
  {
    if k > 0 { SumZero(xs, k - 1); }
  }

  /** A list in shape is the sum of its phases. */
  lemma {:induction false} ListByPhase(c: Config, l: seq<Pack>, owner: AccountId, left: nat)
    requires ListVests(l, c.share, owner, c.N(), left) && 1 <= left
    ensures ListTotal(l) == SumInts(LockedByPhase(c, l), c.N())
  {
    if l == [] {
      SumZero(LockedByPhase(c, l), c.N());
    } else {
      var front, last := l[..|l| - 1], l[|l| - 1];
      ListVestsPrefix(l, c.share, owner, c.N(), left);
      ListByPhase(c, front, owner, left);
      assert Vests(last, c.share, owner, c.N(), left);
      SumOne(LockedByPhase(c, front), LockedByPhase(c, l), last.phase, last.Total(), c.N());
    }
  }

  /** Dominated term by term: then the surplus of one phase is at most the whole surplus. */
  lemma {:induction false} SurplusOfOne(c: Config, xs: seq<int>, us: seq<int>, p: nat, k: nat)
    requires 1 <= p <= k <= c.N() == |xs| == |us|
    requires forall i :: 0 <= i < k ==> us[i] <= c.phases[i].exchange * xs[i]
    ensures c.At(p).exchange * xs[p - 1] - us[p - 1] <= c.Weigh(xs, k) - SumInts(us, k)
  {
    if k > p {
      SurplusOfOne(c, xs, us, p, k - 1);
    } else {
      SurplusOfAll(c, xs, us, k - 1);
    }
  }

  lemma {:induction false} SurplusOfAll(c: Config, xs: seq<int>, us: seq<int>, k: nat)
    requires k <= c.N() == |xs| == |us|
    requires forall i :: 0 <= i < k ==> us[i] <= c.phases[i].exchange * xs[i]
    ensures 0 <= c.Weigh(xs, k) - SumInts(us, k)
  {
    if k > 0 { SurplusOfAll(c, xs, us, k - 1); }
  }

  lemma ShareBelow(u: nat, n: nat, s: nat, k: nat)
    requires n > 0 && k <= n && u * n <= s * k
    ensures u <= s && u <= s * k / n
  {
    MulMono(k, n, s);
    MulCancel(u, s, n);
    var q := s * k / n;
    assert s * k == q * n + s * k % n;
    if u > q { MulMono(q + 1, u, n); }
  }

  lemma SoldOrNone(c: Config, s: State, u: AccountId, p: nat)
    requires InPhase(c, s) && Capped(c, s) && 1 <= p <= c.N()
    requires Bal(s.free, c.At(p).iou, u) <= s.Issued(c.At(p).iou)
    ensures s.left - 1 <= c.N() - p + 1 || Bal(s.free, c.At(p).iou, u) == 0
  {
    if p > s.phase { NothingSoldYet(c, s, p); }
  }

  lemma LockedBelowWorth(c: Config, s: State, u: AccountId, p: nat)
    requires 1 <= p <= c.N() && s.left >= 1 && ShareAt(c, s, u, p)
    requires s.left - 1 <= c.N() - p + 1 || Bal(s.free, c.At(p).iou, u) == 0
    ensures var worth := c.At(p).exchange * Bal(s.free, c.At(p).iou, u);
            PhaseTotal(s.List(u), c.share, p) <= worth
            && PhaseTotal(s.List(u), c.share, p) <= worth * (s.left - 1) / (c.N() - p + 1)
  {
    var worth := c.At(p).exchange * Bal(s.free, c.At(p).iou, u);
    BelowWorth(PhaseTotal(s.List(u), c.share, p), c.N() - p + 1, worth, s.left - 1);
  }

  lemma BelowWorth(u: nat, n: nat, s: nat, k: nat)
    requires n > 0 && (k <= n || s == 0) && u * n <= s * k
    ensures u <= s && u <= s * k / n
  {
    if k <= n { ShareBelow(u, n, s, k); } else if u > 0 { MulMono(1, u, n); }
  }

  /** Of a pristine account, the free shares cover what the IOUs of any one phase require
      beyond the locked shares of that phase. */
  lemma FreeCoversPhase(c: Config, s: State, u: AccountId, p: nat)
    requires Core(c, s) && Pristine(c, s, u) && 1 <= p <= c.N()
    requires forall q :: 1 <= q <= c.N() ==> Bal(s.free, c.At(q).iou, u) <= s.Issued(c.At(q).iou)
    ensures c.At(p).exchange * Bal(s.free, c.At(p).iou, u)
        - PhaseTotal(s.List(u), c.share, p) <= Bal(s.free, c.share, u)
  {
    var l, xs := s.List(u), Held(c, s, u);
    var us := LockedByPhase(c, l);
    assert ListVests(l, c.share, u, c.N(), s.left);
    forall i | 0 <= i < c.N() ensures us[i] <= c.phases[i].exchange * xs[i] { PhaseCovered(c, s, u, i + 1); }
    hide *;
    ListByPhase(c, l, u, s.left);
    SurplusOfOne(c, xs, us, p, c.N());
    assert xs[p - 1] == Bal(s.free, c.At(p).iou, u) && us[p - 1] == PhaseTotal(l, c.share, p) by {
      PhaseAt(c, s, u, p);
    }
    assert c.Weigh(xs, c.N()) <= Bal(s.free, c.share, u) + ListTotal(l) by { PristineCovers(c, s, u); }
  }

  lemma PhaseCovered(c: Config, s: State, u: AccountId, p: nat)
    requires Core(c, s) && VestedShare(c, s, u) && 1 <= p <= c.N()
    requires Bal(s.free, c.At(p).iou, u) <= s.Issued(c.At(p).iou)
    ensures LockedByPhase(c, s.List(u))[p - 1] <= c.phases[p - 1].exchange * Held(c, s, u)[p - 1]
  {
    assert ShareAt(c, s, u, p) && c.At(p) == c.phases[p - 1];
    SoldOrNone(c, s, u, p);
    LockedBelowWorth(c, s, u, p);
  }

  lemma PhaseAt(c: Config, s: State, u: AccountId, p: nat)
    requires 1 <= p <= c.N()
    ensures Held(c, s, u)[p - 1] == Bal(s.free, c.At(p).iou, u)
    ensures LockedByPhase(c, s.List(u))[p - 1] == PhaseTotal(s.List(u), c.share, p)
  {
  }

  lemma PristineCovers(c: Config, s: State, u: AccountId)
    requires Pristine(c, s, u)
    ensures c.Weigh(Held(c, s, u), c.N()) <= Bal(s.free, c.share, u) + ListTotal(s.List(u))
  {
  }

  /** All of a pristine account's IOUs of a phase can be redeemed at any time: the check passes,
      the phase's locked shares are used up entirely, and no pack is left to be split. */
  lemma WholePhaseRedeems(c: Config, s: State, u: AccountId, p: nat, amount: nat)
    requires c.WellFormed() && Core(c, s) && Pristine(c, s, u) && 1 <= p <= c.N()
    requires forall q :: 1 <= q <= c.N() ==> Bal(s.free, c.At(q).iou, u) <= s.Issued(c.At(q).iou)
    requires amount == Bal(s.free, c.At(p).iou, u)
    ensures CheckCanRedeem(c, s.left, Bal(s.free, c.share, u), s.List(u), p, amount).Done?
    ensures RedeemTake(c, s, u, p, amount).1 == PhaseTotal(s.List(u), c.share, p)
    ensures RedeemTake(c, s, u, p, amount).0 + RedeemTake(c, s, u, p, amount).1 == amount * c.At(p).exchange
    ensures !LeavesUneven(c, s, u, p, amount)
  {
    RedeemFits(c, s, p, amount);
    assert ShareAt(c, s, u, p);
    SoldOrNone(c, s, u, p);
    LockedBelowWorth(c, s, u, p);
    FreeCoversPhase(c, s, u, p);
    Commutes(amount, c.At(p).exchange);
    hide Core, Pristine, PhaseTotal, LockedPart, ShareAt;
    WholePockets(Bal(s.free, c.share, u), PhaseTotal(s.List(u), c.share, p), amount * c.At(p).exchange,
                 LockedPart(c, p, s.left, amount * c.At(p).exchange));
  }

  lemma WholePockets(free: nat, unreleased: nat, required: nat, locked: nat)
    requires unreleased <= locked <= required <= free + unreleased
    ensures CheckPockets(free, unreleased, required, locked).Done?
    ensures Pockets(free, unreleased, required, locked) == (required - unreleased, unreleased)
  {
  }

  // ---------------------------------------------------------------- afterwards

  /** After a whole-phase redemption the account is still pristine, with nothing of the phase left. */
  lemma RedeemKeepsOwnWay(c: Config, s: State, t: State, u: AccountId, p: nat, amount: nat, burnt: bool)
    requires c.WellFormed() && Pristine(c, s, u) && 1 <= p <= c.N() && s.left >= 1
    requires amount == Bal(s.free, c.At(p).iou, u) && RedeemedFor(c, s, t, u, p, amount, burnt)
    requires RedeemTake(c, s, u, p, amount).1 == PhaseTotal(s.List(u), c.share, p)
    requires RedeemTake(c, s, u, p, amount).0 + RedeemTake(c, s, u, p, amount).1 == amount * c.At(p).exchange
    ensures Pristine(c, t, u)
    ensures Bal(t.free, c.At(p).iou, u) == 0 && PhaseTotal(t.List(u), c.share, p) == 0
    ensures Entitled(c, t, u) == Entitled(c, s, u) - c.At(p).exchange * amount
    ensures Bal(t.free, c.collected, u) == Bal(s.free, c.collected, u) + amount
    ensures c.Weigh(Held(c, t, u), c.N()) == c.Weigh(Held(c, s, u), c.N()) - c.At(p).exchange * amount
    ensures SumInts(Held(c, t, u), c.N()) == SumInts(Held(c, s, u), c.N()) - amount
    ensures forall q :: 1 <= q <= c.N() && q != p ==> Bal(t.free, c.At(q).iou, u) == Bal(s.free, c.At(q).iou, u)
  {
    var take := RedeemTake(c, s, u, p, amount);
    hide RedeemTake, VestedShare, PhaseTotal, ListTotal, Held, PacksVest;
    c.IouFound(p);
    OwnIous(c, s, t, u, p, amount, take.0, burnt);
    OwnShares(c, s, t, u, p, amount);
    Commutes(amount, c.At(p).exchange);
    OwnWorth(c, s, t, u, p, amount);
  }

  lemma OwnIous(c: Config, s: State, t: State, u: AccountId, p: nat, amount: nat, burned: nat, burnt: bool)
    requires c.AssetsDistinct() && 1 <= p <= c.N() && u != c.collection
    requires RedeemBalances(c, s, t, u, c.At(p).iou, amount, burned, burnt)
    ensures forall q :: 1 <= q <= c.N() ==>
      Bal(t.free, c.At(q).iou, u) == Bal(s.free, c.At(q).iou, u) - if q == p then amount else 0
  {
    forall q | 1 <= q <= c.N()
      ensures Bal(t.free, c.At(q).iou, u) == Bal(s.free, c.At(q).iou, u) - if q == p then amount else 0
    {
      c.IouFound(q);
      if q != p { IousApart(c, q, p); }
    }
  }

  lemma OwnShares(c: Config, s: State, t: State, u: AccountId, p: nat, amount: nat)
    requires VestedShare(c, s, u) && t.left == s.left && 1 <= p <= c.N()
    requires ListsShrink(c, s, t, u, p, PhaseTotal(s.List(u), c.share, p))
    requires forall q ::
      1 <= q <= c.N() ==> Bal(t.free, c.At(q).iou, u) == Bal(s.free, c.At(q).iou, u) - if q == p then amount else 0
    requires s.left >= 1
    ensures VestedShare(c, t, u)
  {
    hide PhaseTotal, ListTotal, ShareAt;
    forall q | 1 <= q <= c.N() ensures ShareAt(c, t, u, q) {
      assert ShareAt(c, s, u, q);
      ShareAtAfter(c, s, t, u, q);
    }
  }

  /** The bound for a phase of which nothing is locked, or nothing changed. */
  lemma ShareAtAfter(c: Config, s: State, t: State, u: AccountId, q: nat)
    requires 1 <= q <= c.N() && ShareAt(c, s, u, q) && t.left == s.left && s.left >= 1
    requires
      || PhaseTotal(t.List(u), c.share, q) == 0
      || (PhaseTotal(t.List(u), c.share, q) == PhaseTotal(s.List(u), c.share, q)
          && Bal(t.free, c.At(q).iou, u) == Bal(s.free, c.At(q).iou, u))
    ensures ShareAt(c, t, u, q)
  {
    hide PhaseTotal;
    assert c.At(q).exchange * Bal(t.free, c.At(q).iou, u) * (t.left - 1) >= 0;
  }

  lemma OwnWorth(c: Config, s: State, t: State, u: AccountId, p: nat, amount: nat)
    requires 1 <= p <= c.N()
    requires forall q ::
      1 <= q <= c.N() ==> Bal(t.free, c.At(q).iou, u) == Bal(s.free, c.At(q).iou, u) - if q == p then amount else 0
    ensures c.Weigh(Held(c, t, u), c.N()) == c.Weigh(Held(c, s, u), c.N()) - c.At(p).exchange * amount
    ensures SumInts(Held(c, t, u), c.N()) == SumInts(Held(c, s, u), c.N()) - amount
  {
    forall i | 0 <= i < c.N()
      ensures Held(c, t, u)[i] == Held(c, s, u)[i] + if i + 1 == p then -(amount as int) else 0
    {
      assert c.At(i + 1) == c.phases[i];
    }
    WeighOne(c, Held(c, s, u), Held(c, t, u), p, -(amount as int), c.N());
    assert c.At(p).exchange * -(amount as int) == -(c.At(p).exchange * amount);
  }

  /** Other accounts' ways out are not touched by a redemption. */
  lemma RedeemKeepsOthersWay(c: Config, s: State, t: State, who: AccountId, p: nat, amount: nat, burnt: bool,
                             u: AccountId)
    requires c.AssetsDistinct() && Pristine(c, s, u) && u != who && 1 <= p <= c.N() && s.left >= 1
    requires RedeemedFor(c, s, t, who, p, amount, burnt)
    ensures Pristine(c, t, u)
  {
    hide RedeemTake, PacksVest;
    c.IouFound(p);
    PristineSame(c, s, t, u);
  }

  /** An account that got out of every phase has nothing locked, and of its shares exactly
      those are left that its IOUs did not account for. */
  lemma NothingLeft(c: Config, s: State, u: AccountId)
    requires Core(c, s) && Pristine(c, s, u)
    requires forall p :: 1 <= p <= c.N() ==> Bal(s.free, c.At(p).iou, u) == 0
    ensures ListTotal(s.List(u)) == 0
    ensures Entitled(c, s, u) == Bal(s.free, c.share, u)
  {
    var l := s.List(u);
    ListByPhase(c, l, u, s.left);
    forall i | 0 <= i < c.N() ensures LockedByPhase(c, l)[i] == 0 {
      PhaseIsEmpty(c, s, u, i + 1);
    }
    SumZero(LockedByPhase(c, l), c.N());
  }

  lemma PhaseIsEmpty(c: Config, s: State, u: AccountId, p: nat)
    requires VestedShare(c, s, u) && 1 <= p <= c.N() && s.left >= 1 && Bal(s.free, c.At(p).iou, u) == 0
    ensures PhaseTotal(s.List(u), c.share, p) == 0
  {
    assert ShareAt(c, s, u, p);
    hide PhaseTotal;
    var x := PhaseTotal(s.List(u), c.share, p);
    MulMono(1, c.N() - p + 1, x);
    assert x * (c.N() - p + 1) <= c.At(p).exchange * 0 * (s.left - 1);
  }
}
