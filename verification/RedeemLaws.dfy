/** Redemption in rio-saving: how much comes out of which pocket, and why the laws survive. */
module RedeemLaws {
  import opened Primitives
  import opened Books
  import opened VestingPacks
  import opened PackLists
  import opened SavingModel
  import opened SavingLaws

  // ---------------------------------------------------------------- the two pockets

  /** The part of `required` that should come from locked shares: (left - 1) out of the
      phases from `p` on. */
  function LockedPart(c: Config, p: nat, left: nat, required: nat): nat
    requires 1 <= p <= c.N() && left >= 1
  {
    required * (left - 1) / (c.N() - p + 1)
  }

  lemma LockedPartIs(c: Config, p: nat, left: nat, required: nat)
    requires 1 <= p <= c.N() && left >= 1
    ensures var x, n := LockedPart(c, p, left, required), c.N() - p + 1;
            x * n <= required * (left - 1) < (x + 1) * n
  {
    var x, n := LockedPart(c, p, left, required), c.N() - p + 1;
    assert required * (left - 1) == x * n + required * (left - 1) % n;
    assert (x + 1) * n == x * n + n;
  }

  /** check_can_redeem, given the account's free shares and its unreleased list. */
  function CheckCanRedeem(c: Config, left: nat, free: nat, list: seq<Pack>, p: nat, amount: nat): Outcome
    requires 1 <= p <= c.N() && left >= 1
  {
    var required := amount * c.At(p).exchange;
    if required > MAX_BALANCE || required * (left - 1) > MAX_BALANCE
        || LockedPart(c, p, left, required) > required then Aborted
    else CheckPockets(free, PhaseTotal(list, c.share, p), required, LockedPart(c, p, left, required))
  }

  function CheckPockets(free: nat, unreleased: nat, required: nat, locked: nat): Outcome
    requires locked <= required
  {
    if free >= required then Done
    else if free < required - locked && (required - locked) + locked != unreleased + free then
      Failed("not enough available share asset")
    else if required > unreleased + free then Failed("exceed allowed redeem limits")
    else Done
  }

  /** Shares taken from the free and from the locked pocket: the locked part as it should be,
      unless one pocket falls short of its part, which then gives all it has. */
  ghost function Pockets(free: nat, unreleased: nat, required: nat, locked: nat): (nat, nat)
    requires locked <= required
  {
    if unreleased < locked then (required - unreleased, unreleased)
    else if free < required - locked then (free, required - free)
    else (required - locked, locked)
  }

  /** A passed check is exactly the promise that the pockets cover the redemption: they add up
      to it, neither gives more than it has, and if free shares fall short of their part the
      locked ones are used up.  Both never fall short at once. */
  lemma CheckMeansCovered(free: nat, unreleased: nat, required: nat, locked: nat)
    requires locked <= required
    ensures var take := Pockets(free, unreleased, required, locked);
            && take.0 + take.1 == required
            && (CheckPockets(free, unreleased, required, locked).Done? <==>
                  take.0 <= free && take.1 <= unreleased && (free < required - locked ==> take.1 == unreleased))
            && (CheckPockets(free, unreleased, required, locked).Done? ==>
                  !(unreleased < locked && free < required - locked))
  {
  }

  // ---------------------------------------------------------------- one redemption

  /** The pockets of a redemption of `amount` IOUs of phase `p`. */
  ghost function RedeemTake(c: Config, s: State, who: AccountId, p: nat, amount: nat): (nat, nat)
    requires 1 <= p <= c.N() && s.left >= 1
  {
    var required := amount * c.At(p).exchange;
    var locked := LockedPart(c, p, s.left, required);
    if locked <= required then Pockets(Bal(s.free, c.share, who), PhaseTotal(s.List(who), c.share, p), required, locked)
    else (0, 0)
  }

  /** Something of the locked shares stays behind and cannot be split into the payouts left. */
  ghost predicate LeavesUneven(c: Config, s: State, who: AccountId, p: nat, amount: nat)
    requires 1 <= p <= c.N() && s.left >= 1
  {
    UnevenRest(s, PhaseTotal(s.List(who), c.share, p), RedeemTake(c, s, who, p, amount).1)
  }

  ghost predicate UnevenRest(s: State, unreleased: nat, taken: nat)
  {
    s.left >= 2 && unreleased > taken && !SplitsEvenly(unreleased - taken, s.left - 1)
  }

  /** `who`'s list of phase `p` shrinks by `taken`; nobody else's changes. */
  ghost predicate ListsShrink(c: Config, s: State, t: State, who: AccountId, p: nat, taken: nat)
  {
    && (forall u :: u != who ==> t.List(u) == s.List(u))
    && t.Locked() + taken == s.Locked() && ListTotal(t.List(who)) + taken == ListTotal(s.List(who))
    && (forall q ::
          PhaseTotal(t.List(who), c.share, q) + (if q == p then taken else 0) == PhaseTotal(s.List(who), c.share, q))
  }

  /** Balances after `burned` of `who`'s free shares are gone and the collection account has
      paid `amount` back. */
  ghost predicate PaidBack(c: Config, s: State, t: State, who: AccountId, amount: nat, burned: nat)
  {
    && (forall a, u :: Bal(t.free, a, u) == Bal(s.free, a, u)
          - (if a == c.share && u == who then burned else 0)
          - (if a == c.collected && u == c.collection then amount else 0)
          + (if a == c.collected && u == who then amount else 0))
    && (forall a :: t.Issued(a) == s.Issued(a) - if a == c.share then burned else 0)
  }

  ghost predicate BurntAndPaid(c: Config, s: State, t: State, who: AccountId, amount: nat, burned: nat)
  {
    && SamePosition(s, t) && SameIndex(s, t) && t.unreleased == s.unreleased
    && (forall a, u :: Bal(t.free, a, u) == Bal(s.free, a, u)
          - (if a == c.share && u == c.collection then burned else 0)
          - (if a == c.collected && u == c.collection then amount else 0)
          + (if a == c.collected && u == who then amount else 0))
    && (forall a :: t.Issued(a) == s.Issued(a) - if a == c.share then burned else 0)
  }

  lemma BurnLeaves(c: Config, s: State, m: State, burned: nat)
    requires c.AssetsDistinct() && AssetBurned(s, m, c.share, c.collection, burned)
    ensures Bal(m.free, c.collected, c.collection) == Bal(s.free, c.collected, c.collection)
  {
  }

  lemma BurnsAndPays(c: Config, s: State, m: State, t: State, who: AccountId, amount: nat, burned: nat)
    requires c.AssetsDistinct() && AssetBurned(s, m, c.share, c.collection, burned) && SameIndex(s, m)
    requires AssetMoved(m, t, c.collected, c.collection, who, amount)
    ensures BurntAndPaid(c, s, t, who, amount, burned)
  {
    assert forall a :: t.Issued(a) == m.Issued(a) == Get(m.issuance, a) && s.Issued(a) == Get(s.issuance, a);
  }

  /** What make_redeem does: `required` shares out of the two pockets, `amount` back. */
  ghost predicate Redeemed(c: Config, s: State, t: State, who: AccountId, p: nat, amount: nat, take: (nat, nat))
  {
    && SamePosition(s, t) && SameIndex(s, t) && PacksVest(c, t)
    && ListsShrink(c, s, t, who, p, take.1) && PaidBack(c, s, t, who, amount, take.0)
  }

  /** Both pockets are emptied, the free shares are on their way through the collection account. */
  ghost predicate SharesTaken(c: Config, s: State, t: State, who: AccountId, p: nat, take: (nat, nat))
  {
    && SamePosition(s, t) && SameIndex(s, t) && PacksVest(c, t) && t.issuance == s.issuance
    && ListsShrink(c, s, t, who, p, take.1)
    && (forall a, u :: Bal(t.free, a, u) == Bal(s.free, a, u)
          - (if a == c.share && u == who then take.0 else 0)
          + (if a == c.share && u == c.collection then take.0 else 0))
  }

  lemma RedeemsTaken(c: Config, s: State, m: State, t: State, who: AccountId, p: nat, amount: nat, take: (nat, nat))
    requires SharesTaken(c, s, m, who, p, take) && BurntAndPaid(c, m, t, who, amount, take.0)
    ensures Redeemed(c, s, t, who, p, amount, take)
  {
    ShrinkStays(c, s, m, t, who, p, take.1);
    PaysBack(c, s, m, t, who, p, amount, take);
  }

  lemma ShrinkStays(c: Config, s: State, m: State, t: State, who: AccountId, p: nat, taken: nat)
    requires t.unreleased == m.unreleased && ListsShrink(c, s, m, who, p, taken)
    ensures ListsShrink(c, s, t, who, p, taken)
  {
    hide ListTotal, PhaseTotal;
    LockedSame(m, t);
  }

  lemma PaysBack(c: Config, s: State, m: State, t: State, who: AccountId, p: nat, amount: nat, take: (nat, nat))
    requires SharesTaken(c, s, m, who, p, take) && BurntAndPaid(c, m, t, who, amount, take.0)
    ensures PaidBack(c, s, t, who, amount, take.0)
  {
    hide ListsShrink, PacksVest, SameIndex, SamePosition;
  }

  /** `who`'s list with `taken` less in phase `p`. */
  lemma ShrinkLaw(c: Config, s: State, t: State, who: AccountId, p: nat, taken: nat, l: seq<Pack>)
    requires PacksVest(c, s) && SamePosition(s, t) && who != c.collection
    requires t.unreleased == (s.unreleased - {who})[who := l]
    requires ListVests(l, c.share, who, c.N(), s.left) && ListTotal(l) + taken == ListTotal(s.List(who))
    requires forall q ::
      PhaseTotal(l, c.share, q) + (if q == p then taken else 0) == PhaseTotal(s.List(who), c.share, q)
    ensures PacksVest(c, t) && ListsShrink(c, s, t, who, p, taken)
  {
    assert t.unreleased == s.unreleased[who := l];
    LockedSet(s, who, l);
    LockedSame(t, s.(unreleased := s.unreleased[who := l]));
  }

  lemma Commutes(a: int, b: int)
    ensures a * b == b * a
  {
  }

  /** The list make_redeem puts back, and when it cannot. */
  lemma AggregateTaken(c: Config, l: seq<Pack>, who: AccountId, p: nat, left: nat, taken: nat, r: Outcome,
                       out: seq<Pack>)
    requires ListVests(l, c.share, who, c.N(), left) && left >= 1 && taken <= PhaseTotal(l, c.share, p)
    requires PhaseTotal(l, c.share, p) + left <= MAX_BALANCE
    requires var total := PhaseTotal(l, c.share, p);
             if total == taken then r.Done? && out == Others(l, c.share, p)
             else
               var pack := Repacked(who, c.share, p, total - taken, TermsOf(l, c.share, p));
               if pack.None? then r.Aborted? else r.Done? && out == Others(l, c.share, p) + [pack.value]
    ensures !r.Failed?
    ensures r.Aborted? <==>
      left >= 2 && PhaseTotal(l, c.share, p) > taken && !SplitsEvenly(PhaseTotal(l, c.share, p) - taken, left - 1)
    ensures r.Done? ==>
      && ListVests(out, c.share, who, c.N(), left) && ListTotal(out) + taken == ListTotal(l)
      && forall q :: PhaseTotal(out, c.share, q) + (if q == p then taken else 0) == PhaseTotal(l, c.share, q)
  {
    hide CreateSharePack, Repacked, SplitsEvenly, SplitFits, Portion;
    var total := PhaseTotal(l, c.share, p);
    if total == taken {
      DropPhase(l, p, c.share, who, c.N(), left);
    } else {
      TermsInShape(l, c.share, who, p, c.N(), left);
      SmallSplitFits(total - taken, left - 1);
      RepackedVests(who, c.share, p, total - taken, c.N(), left);
      var pack := Repacked(who, c.share, p, total - taken, TermsOf(l, c.share, p));
      if pack.Some? { ReplacePhase(l, pack.value, c.share, who, c.N(), left); }
    }
  }

  // ---------------------------------------------------------------- the laws survive a redemption

  /** `amount` IOUs of phase `p` go from `who` to the collection account. */
  ghost predicate IouReturned(c: Config, s: State, t: State, who: AccountId, p: nat, amount: nat)
    requires 1 <= p <= c.N()
  {
    && SamePosition(s, t) && SameIndex(s, t) && t.unreleased == s.unreleased && t.issuance == s.issuance
    && who != c.collection
    && (forall a, u :: Bal(t.free, a, u) == Bal(s.free, a, u)
          - (if a == c.At(p).iou && u == who then amount else 0)
          + (if a == c.At(p).iou && u == c.collection then amount else 0))
  }

  lemma OutstandingShrinks(c: Config, s: State, m: State, t: State, who: AccountId, p: nat, amount: nat, burned: nat)
    requires c.AssetsDistinct() && 1 <= p <= c.N() && who != c.collection
    requires IouReturned(c, s, m, who, p, amount) && PaidBack(c, m, t, who, amount, burned)
    ensures c.Weigh(Outstanding(c, t), c.N()) == c.Weigh(Outstanding(c, s), c.N()) - c.At(p).exchange * amount
    ensures SumInts(Outstanding(c, t), c.N()) == SumInts(Outstanding(c, s), c.N()) - amount
  {
    forall i | 0 <= i < c.N()
      ensures Outstanding(c, t)[i] == Outstanding(c, s)[i] + if i + 1 == p then -(amount as int) else 0
    {
      c.IouFound(i + 1);
      if i + 1 != p { IousApart(c, i + 1, p); }
      assert c.At(i + 1) == c.phases[i];
    }
    WeighOne(c, Outstanding(c, s), Outstanding(c, t), p, -(amount as int), c.N());
    assert c.At(p).exchange * -(amount as int) == -(c.At(p).exchange * amount);
  }

  lemma RedeemCaps(c: Config, s: State, m: State, t: State, who: AccountId, p: nat, amount: nat, take: (nat, nat))
    requires c.AssetsDistinct() && InPhase(c, s) && 1 <= p <= c.N()
    requires IouReturned(c, s, m, who, p, amount) && Redeemed(c, m, t, who, p, amount, take)
    requires Capped(c, s) && Indexed(c, s)
    ensures InPhase(c, t) && Capped(c, t) && Indexed(c, t)
    ensures t.Issued(c.share) + t.Locked() == s.Issued(c.share) + s.Locked() - take.0 - take.1
  {
    LockedSame(s, m);
    forall q | 1 <= q <= c.N() ensures t.Issued(c.At(q).iou) == s.Issued(c.At(q).iou) { c.IouFound(q); }
  }

  /** The backing law and all others survive a redemption of any size. */
  lemma RedeemKeepsInv(c: Config, s: State, m: State, t: State, who: AccountId, p: nat, amount: nat, take: (nat, nat))
    requires c.WellFormed() && Inv(c, s) && 1 <= p <= c.N() && who != c.collection
    requires IouReturned(c, s, m, who, p, amount) && Redeemed(c, m, t, who, p, amount, take)
    requires take.0 + take.1 == amount * c.At(p).exchange
    ensures Inv(c, t)
  {
    hide Capped, Indexed, Covered, IouReturned, ListsShrink, Outstanding;
    RedeemCaps(c, s, m, t, who, p, amount, take);
    OutstandingShrinks(c, s, m, t, who, p, amount, take.0);
    Commutes(c.At(p).exchange, amount);
    CoveredAfter(c, s, m, t, who, p, amount, take.0);
    ReturnKeepsPause(c, s, m, who, p, amount);
  }

  lemma ReturnKeepsPause(c: Config, s: State, m: State, who: AccountId, p: nat, amount: nat)
    requires 1 <= p <= c.N() && IouReturned(c, s, m, who, p, amount)
    ensures SamePosition(s, m) && SameIndex(s, m)
  {
  }

  lemma CoveredAfter(c: Config, s: State, m: State, t: State, who: AccountId, p: nat, amount: nat, burned: nat)
    requires c.AssetsDistinct() && 1 <= p <= c.N() && who != c.collection && Covered(c, s)
    requires IouReturned(c, s, m, who, p, amount) && PaidBack(c, m, t, who, amount, burned)
    ensures Covered(c, t)
  {
    OutstandingShrinks(c, s, m, t, who, p, amount, burned);
    c.IouFound(p);
  }

  lemma TakenFits(c: Config, s: State, who: AccountId, p: nat)
    requires s.Locked() + c.N() <= MAX_BALANCE
    ensures PhaseTotal(s.List(who), c.share, p) + c.N() <= MAX_BALANCE
  {
    OthersTotals(s.List(who), c.share, p);
    LockedSet(s, who, []);
  }

  /** A complete redemption, from before the IOUs were handed in: the shares of both pockets are
      gone, the stake is back, and the IOUs are burned, or, after a plain transfer, lie in the
      collection account. */
  ghost predicate RedeemedFor(c: Config, s: State, t: State, who: AccountId, p: nat, amount: nat, burnt: bool)
    requires 1 <= p <= c.N() && s.left >= 1
  {
    var take := RedeemTake(c, s, who, p, amount);
    && SamePosition(s, t) && SameIndex(s, t) && PacksVest(c, t) && ListsShrink(c, s, t, who, p, take.1)
    && RedeemBalances(c, s, t, who, c.At(p).iou, amount, take.0, burnt)
  }

  ghost predicate RedeemBalances(c: Config, s: State, t: State, who: AccountId, iou: AssetId, amount: nat, burned: nat,
                                 burnt: bool)
  {
    && (forall a, u :: Bal(t.free, a, u) == Bal(s.free, a, u)
          - (if a == iou && u == who then amount else 0)
          + (if a == iou && u == c.collection && !burnt then amount else 0)
          - (if a == c.share && u == who then burned else 0)
          - (if a == c.collected && u == c.collection then amount else 0)
          + (if a == c.collected && u == who then amount else 0))
    && (forall a ::
          t.Issued(a) == s.Issued(a) - (if a == c.share then burned else 0) - (if a == iou && burnt then amount else 0))
  }

  /** From the returned IOUs `m` to the redemption `t`. */
  lemma ReturnedRedeems(c: Config, s: State, m: State, t: State, who: AccountId, p: nat, amount: nat)
    requires c.WellFormed() && Inv(c, s) && 1 <= p <= c.N() && who != c.collection
    requires IouReturned(c, s, m, who, p, amount)
    requires Redeemed(c, m, t, who, p, amount, RedeemTake(c, m, who, p, amount))
    requires LockedPart(c, p, s.left, amount * c.At(p).exchange) <= amount * c.At(p).exchange
    ensures Inv(c, t) && RedeemedFor(c, s, t, who, p, amount, false)
  {
    var take := RedeemTake(c, m, who, p, amount);
    TakeSame(c, s, m, who, p, amount);
    RedeemKeepsInv(c, s, m, t, who, p, amount, take);
    ReturnedBalances(c, s, m, t, who, p, amount, take.0);
    ReturnedLists(c, s, m, t, who, p, take.1);
  }

  lemma TakeSame(c: Config, s: State, m: State, who: AccountId, p: nat, amount: nat)
    requires c.AssetsDistinct() && 1 <= p <= c.N() && s.left >= 1 && IouReturned(c, s, m, who, p, amount)
    ensures RedeemTake(c, s, who, p, amount) == RedeemTake(c, m, who, p, amount)
    ensures LockedPart(c, p, s.left, amount * c.At(p).exchange) <= amount * c.At(p).exchange ==>
      var take := RedeemTake(c, m, who, p, amount);
      take.0 + take.1 == amount * c.At(p).exchange
    ensures LeavesUneven(c, s, who, p, amount) <==> LeavesUneven(c, m, who, p, amount)
  {
    hide LockedPart, PhaseTotal, SplitsEvenly;
    c.IouFound(p);
  }

  lemma ReturnedBalances(c: Config, s: State, m: State, t: State, who: AccountId, p: nat, amount: nat, burned: nat)
    requires 1 <= p <= c.N() && IouReturned(c, s, m, who, p, amount) && PaidBack(c, m, t, who, amount, burned)
    ensures RedeemBalances(c, s, t, who, c.At(p).iou, amount, burned, false)
  {
  }

  lemma ReturnedLists(c: Config, s: State, m: State, t: State, who: AccountId, p: nat, taken: nat)
    requires m.unreleased == s.unreleased && ListsShrink(c, m, t, who, p, taken)
    ensures ListsShrink(c, s, t, who, p, taken)
  {
    hide ListTotal, PhaseTotal;
    LockedSame(s, m);
  }

  /** Burning the returned IOUs completes the redemption. */
  lemma BurnsReturned(c: Config, s: State, m: State, t: State, who: AccountId, p: nat, amount: nat)
    requires c.AssetsDistinct() && 1 <= p <= c.N() && s.left >= 1 && who != c.collection
    requires RedeemedFor(c, s, m, who, p, amount, false)
    requires AssetBurned(m, t, c.At(p).iou, c.collection, amount) && SameIndex(m, t)
    ensures RedeemedFor(c, s, t, who, p, amount, true)
  {
    hide LockedPart, SplitsEvenly, RedeemTake;
    c.IouFound(p);
    var take := RedeemTake(c, s, who, p, amount);
    ShrinkStays(c, s, m, t, who, p, take.1);
    assert PacksVest(c, t);
    BurnsBalances(c, s, m, t, who, p, amount, take.0);
  }

  lemma BurnsBalances(c: Config, s: State, m: State, t: State, who: AccountId, p: nat, amount: nat, burned: nat)
    requires 1 <= p <= c.N() && who != c.collection
    requires RedeemBalances(c, s, m, who, c.At(p).iou, amount, burned, false)
    requires AssetBurned(m, t, c.At(p).iou, c.collection, amount)
    ensures RedeemBalances(c, s, t, who, c.At(p).iou, amount, burned, true)
  {
  }

  lemma ReturnedIsThere(c: Config, s: State, t: State, who: AccountId, p: nat, amount: nat)
    requires c.AssetsDistinct() && 1 <= p <= c.N() && s.left >= 1 && who != c.collection
    requires RedeemedFor(c, s, t, who, p, amount, false)
    ensures Bal(t.free, c.At(p).iou, c.collection) == Bal(s.free, c.At(p).iou, c.collection) + amount
  {
    hide RedeemTake, PacksVest, ListsShrink;
    c.IouFound(p);
  }
}
