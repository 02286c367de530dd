/** What the dispatchable calls of rio-saving do to the state, and that the laws survive. */
module DispatchLaws {
  import opened Primitives
  import opened Books
  import opened VestingPacks
  import opened PackLists
  import opened SavingModel
  import opened SavingLaws
  import opened RedeemLaws

  /** RIO minted alongside a stake: 65 percent of its value, rounded down; `None` where the
      product does not fit into 128 bits. */
  function SbtcToReserved(price: nat, amount: nat): Option<nat>
  {
    if price * amount * 6500 > MAX_BALANCE then None else Some(price * amount * 6500 / (10000 * 10000))
  }

  ghost predicate ReserveFits(price: nat, amount: nat) { price * amount * 6500 <= MAX_BALANCE }

  /** `v` is 65 percent of the value of an amount at a price in units of 10^-4, in whole units. */
  ghost predicate ReserveIs(price: nat, amount: nat, v: nat)
  {
    v * 1_0000_0000 <= price * amount * 6500 < (v + 1) * 1_0000_0000
  }

  lemma ReserveExact(price: nat, amount: nat)
    ensures SbtcToReserved(price, amount).Some? <==> ReserveFits(price, amount)
    ensures SbtcToReserved(price, amount).Some? ==> ReserveIs(price, amount, SbtcToReserved(price, amount).value)
  {
  }

  /** The reserve that goes with a stake of `x` is minted to its wallet, exactly if the issuance has room for
      it; that is what decides how the call ends. */
  ghost predicate ReserveMinted(c: Config, s: State, t: State, price: nat, x: nat, r: Outcome)
  {
    exists v: nat :: ReserveIs(price, x, v) && ReserveGrows(c, s, t, v, r)
  }

  ghost predicate ReserveGrows(c: Config, s: State, t: State, v: nat, r: Outcome)
  {
    && (if s.Issued(c.reservedAsset) + v <= MAX_BALANCE then r.Done? else r.Failed?)
    && t.Issued(c.reservedAsset) == s.Issued(c.reservedAsset) + (if r.Done? then v else 0)
    && forall u :: Bal(t.free, c.reservedAsset, u) ==
         Bal(s.free, c.reservedAsset, u) + if r.Done? && u == c.reservedWallet then v else 0
  }

  /** Nothing is minted or burned of the reserved asset, nor does it move. */
  ghost predicate ReserveKept(c: Config, s: State, t: State)
  {
    && t.Issued(c.reservedAsset) == s.Issued(c.reservedAsset)
    && forall u :: Bal(t.free, c.reservedAsset, u) == Bal(s.free, c.reservedAsset, u)
  }

  /** The wallet has what a redemption of `amount` takes of the reserve. */
  ghost predicate ReserveHeld(c: Config, s: State, price: nat, amount: nat)
  {
    exists v: nat :: ReserveIs(price, amount, v) && v <= Bal(s.free, c.reservedAsset, c.reservedWallet)
  }

  /** It is burned, and nothing else happens. */
  ghost predicate ReserveTaken(c: Config, s: State, t: State, price: nat, amount: nat)
  {
    ReservedOnly(c, s, t)
    && exists v: nat :: ReserveIs(price, amount, v) && AssetBurned(s, t, c.reservedAsset, c.reservedWallet, v)
  }

  /** Only one amount is the reserve. */
  lemma OneReserve(price: nat, amount: nat, v: nat, w: nat)
    requires ReserveIs(price, amount, v) && ReserveIs(price, amount, w)
    ensures v == w
  {
  }

  lemma HeldWhen(c: Config, s: State, price: nat, amount: nat, v: nat)
    requires ReserveIs(price, amount, v)
    ensures ReserveHeld(c, s, price, amount) <==> v <= Bal(s.free, c.reservedAsset, c.reservedWallet)
  {
    forall w: nat | ReserveIs(price, amount, w) ensures w == v { OneReserve(price, amount, v, w); }
    hide ReserveIs;
  }

  /** Only balances of assets outside the schedule differ. */
  ghost predicate OutsideOnly(c: Config, s: State, t: State)
  {
    && SamePosition(s, t) && SameIndex(s, t) && t.unreleased == s.unreleased
    && (forall a, u :: a == c.share || a == c.collected || c.IsIou(a) ==> Bal(t.free, a, u) == Bal(s.free, a, u))
    && (forall a :: a == c.share || a == c.collected || c.IsIou(a) ==> t.Issued(a) == s.Issued(a))
  }

  /** Only the reserved asset differs. */
  ghost predicate ReservedOnly(c: Config, s: State, t: State)
  {
    && SamePosition(s, t) && SameIndex(s, t) && t.unreleased == s.unreleased
    && (forall a, u :: a != c.reservedAsset ==> Bal(t.free, a, u) == Bal(s.free, a, u))
    && (forall a :: a != c.reservedAsset ==> t.Issued(a) == s.Issued(a))
  }

  lemma ReservedIsOutside(c: Config, s: State, t: State)
    requires c.AssetsDistinct() && ReservedOnly(c, s, t)
    ensures OutsideOnly(c, s, t)
  {
  }

  lemma OutstandingSame(c: Config, s: State, t: State)
    requires c.IousDistinct()
    requires forall a ::
      c.IsIou(a) ==> t.Issued(a) - Bal(t.free, a, c.collection) == s.Issued(a) - Bal(s.free, a, c.collection)
    ensures c.Weigh(Outstanding(c, t), c.N()) == c.Weigh(Outstanding(c, s), c.N())
    ensures SumInts(Outstanding(c, t), c.N()) == SumInts(Outstanding(c, s), c.N())
  {
    forall i | 0 <= i < c.N() ensures Outstanding(c, t)[i] == Outstanding(c, s)[i] {
      c.IouFound(i + 1);
      assert c.At(i + 1) == c.phases[i];
    }
    WeighSame(c, Outstanding(c, s), Outstanding(c, t), c.N());
  }

  /** States with the same schedule, lists, index and share supply, and IOUs as outstanding as before. */
  lemma SameLaws(c: Config, s: State, t: State)
    requires c.AssetsDistinct() && SamePosition(s, t) && SameIndex(s, t) && t.unreleased == s.unreleased
    requires forall u :: Bal(t.free, c.share, u) == Bal(s.free, c.share, u)
    requires t.Issued(c.share) == s.Issued(c.share)
    requires forall a :: c.IsIou(a) ==> t.Issued(a) <= s.Issued(a)
    requires forall a ::
      c.IsIou(a) ==> t.Issued(a) - Bal(t.free, a, c.collection) == s.Issued(a) - Bal(s.free, a, c.collection)
    requires Core(c, s)
    ensures Core(c, t)
    ensures SumInts(Outstanding(c, t), c.N()) == SumInts(Outstanding(c, s), c.N())
  {
    LockedSame(s, t);
    OutstandingSame(c, s, t);
    CappedSame(c, s, t);
    hide Capped, Outstanding, Config.IsIou, Config.AssetsDistinct;
    assert Indexed(c, t) && Backed(c, t);
  }

  lemma CappedSame(c: Config, s: State, t: State)
    requires c.IousDistinct() && InPhase(c, s) && SamePosition(s, t) && Capped(c, s)
    requires forall a :: c.IsIou(a) ==> t.Issued(a) <= s.Issued(a)
    requires t.Issued(c.share) == s.Issued(c.share) && t.Locked() == s.Locked()
    ensures InPhase(c, t) && Capped(c, t)
  {
    assert Cum(c, t) == Cum(c, s);
    hide Config.Overlap, Config.Shares, Cum;
    forall p | 1 <= p <= c.N() ensures t.Issued(c.At(p).iou) <= c.Overlap(p, 0, Cum(c, t)) {
      c.IouFound(p);
      assert s.Issued(c.At(p).iou) <= c.Overlap(p, 0, Cum(c, s));
    }
  }

  lemma OutsideKeepsInv(c: Config, s: State, t: State)
    requires c.AssetsDistinct() && OutsideOnly(c, s, t) && Inv(c, s)
    ensures Inv(c, t)
  {
    SameLaws(c, s, t);
  }

  /** An account keeps its way out as long as its lists, shares and IOUs stay put, or its
      shares grow. */
  lemma PristineSame(c: Config, s: State, t: State, u: AccountId)
    requires c.AssetsDistinct() && Pristine(c, s, u) && t.left == s.left && t.List(u) == s.List(u)
    requires Bal(t.free, c.share, u) >= Bal(s.free, c.share, u)
    requires forall a :: c.IsIou(a) ==> Bal(t.free, a, u) == Bal(s.free, a, u)
    ensures Pristine(c, t, u)
  {
    forall i | 0 <= i < c.N() ensures Held(c, t, u)[i] == Held(c, s, u)[i] {
      c.IouFound(i + 1);
      assert c.At(i + 1) == c.phases[i];
    }
    WeighSame(c, Held(c, s, u), Held(c, t, u), c.N());
    forall p | 1 <= p <= c.N() ensures ShareAt(c, t, u, p) {
      c.IouFound(p);
      assert ShareAt(c, s, u, p);
    }
  }

  // ---------------------------------------------------------------- staking

  /** A complete staking call: the schedule moved on by `x` for `who`, `x` of the collected
      asset went to the collection account, and nothing else but the reserved asset changed. */
  ghost predicate StakePaid(c: Config, s: State, t: State, who: AccountId, x: nat)
  {
    && InPhase(c, s) && InPhase(c, t) && Cum(c, t) == Cum(c, s) + x
    && IousSold(c, s, t, who, Cum(c, s), Cum(c, t))
    && EntitledTo(c, s, t, who, c.Shares(Cum(c, s), Cum(c, t)))
    && VestingKept(c, s, t, who, Cum(c, s), Cum(c, t)) && PauseKept(s, t) && PaysFirst(c, s, t, who, x)
    && (forall u :: Bal(t.free, c.collected, u) == Bal(s.free, c.collected, u)
          - (if u == who then x else 0) + (if u == c.collection then x else 0))
    && t.Issued(c.collected) == s.Issued(c.collected)
    && (forall a :: a != c.share && a != c.collected && a != c.reservedAsset && !c.IsIou(a) ==>
          t.Issued(a) == s.Issued(a) && forall u :: Bal(t.free, a, u) == Bal(s.free, a, u))
  }

  ghost predicate SameShares(c: Config, m: State, t: State)
  {
    && t.unreleased == m.unreleased && SamePosition(m, t) && SameIndex(m, t)
    && forall u :: Bal(t.free, c.share, u) == Bal(m.free, c.share, u)
  }

  /** Everybody's shares, free and locked, are as the sale of `x` phase by phase leaves them. */
  ghost predicate SoldTo(c: Config, s: State, t: State, who: AccountId, x: nat)
  {
    exists m :: SoldByPhases(c, s, m, who, x) && SameShares(c, m, t)
  }

  lemma SoldInTheEnd(c: Config, s: State, sold: State, m: State, t: State, who: AccountId, x: nat)
    requires c.AssetsDistinct() && StakeDone(c, s, sold, who, x) && SameShares(c, sold, m) && ReservedOnly(c, m, t)
    ensures SoldTo(c, s, t, who, x)
  {
    assert SoldByPhases(c, s, sold, who, x);
    hide SoldByPhases;
    assert SameShares(c, sold, t);
  }

  lemma PaymentKeepsInv(c: Config, s: State, m: State, t: State, who: AccountId, x: nat)
    requires c.AssetsDistinct() && Covered(c, s) && StakeDone(c, s, m, who, x) && who != c.collection
    requires AssetMoved(m, t, c.collected, who, c.collection, x)
    ensures Inv(c, t) && StakePaid(c, s, t, who, x) && ReserveKept(c, s, t) && SameShares(c, m, t)
  {
    assert ReserveKept(c, s, m);
    hide IousSold, VestingKept, PauseKept, Pristine;
    SameLaws(c, m, t);
    PaymentStakes(c, s, m, t, who, x);
  }

  lemma PaymentStakes(c: Config, s: State, m: State, t: State, who: AccountId, x: nat)
    requires c.AssetsDistinct() && StakedTo(c, s, m, who, x) && PaysFirst(c, s, m, who, x)
    requires AssetMoved(m, t, c.collected, who, c.collection, x)
    ensures StakePaid(c, s, t, who, x)
  {
    hide IousSold, EntitledTo, VestingKept, PaysFirst;
    PaysSame(c, s, m, t, who, x);
    PaymentIous(c, s, m, t, who, x);
    PaymentEntitles(c, s, m, t, who, x);
    PaymentVests(c, s, m, t, who, x);
  }

  lemma PaymentIous(c: Config, s: State, m: State, t: State, who: AccountId, x: nat)
    requires c.AssetsDistinct() && StakedTo(c, s, m, who, x)
    requires AssetMoved(m, t, c.collected, who, c.collection, x)
    ensures IousSold(c, s, t, who, Cum(c, s), Cum(c, m))
  {
    hide EntitledTo, OthersKept, VestingKept, PauseKept;
    forall p, u | 1 <= p <= c.N()
      ensures t.Issued(c.At(p).iou) == m.Issued(c.At(p).iou)
      ensures Bal(t.free, c.At(p).iou, u) == Bal(m.free, c.At(p).iou, u)
    {
      c.IouFound(p);
    }
  }

  lemma PaymentEntitles(c: Config, s: State, m: State, t: State, who: AccountId, x: nat)
    requires c.AssetsDistinct() && StakedTo(c, s, m, who, x)
    requires AssetMoved(m, t, c.collected, who, c.collection, x)
    ensures EntitledTo(c, s, t, who, c.Shares(Cum(c, s), Cum(c, m)))
  {
    hide IousSold, OthersKept, VestingKept, PauseKept;
    LockedSame(m, t);
    forall u ensures Entitled(c, t, u) == Entitled(c, m, u) { }
  }

  lemma PaymentVests(c: Config, s: State, m: State, t: State, who: AccountId, x: nat)
    requires c.AssetsDistinct() && StakedTo(c, s, m, who, x)
    requires AssetMoved(m, t, c.collected, who, c.collection, x)
    ensures VestingKept(c, s, t, who, Cum(c, s), Cum(c, m))
  {
    hide IousSold, OthersKept, EntitledTo, PauseKept;
    SameListsVest(c, s, m, t, who, Cum(c, s), Cum(c, m));
  }

  lemma SameListsVest(c: Config, s: State, m: State, t: State, who: AccountId, lo: nat, hi: nat)
    requires VestingKept(c, s, m, who, lo, hi) && t.left == m.left && t.unreleased == m.unreleased
    ensures VestingKept(c, s, t, who, lo, hi)
  {
    forall u, p, b: nat | 1 <= p <= c.N() && ShareOf(c, s, u, p, b)
      ensures ShareOf(c, t, u, p, b + if u == who then c.Overlap(p, lo, hi) else 0)
    {
      assert ShareOf(c, m, u, p, b + if u == who then c.Overlap(p, lo, hi) else 0) && t.List(u) == m.List(u);
    }
  }

  /** Minting the reserved asset afterwards changes none of it. */
  lemma ReserveAfterStake(c: Config, s: State, m: State, t: State, who: AccountId, x: nat)
    requires c.AssetsDistinct() && StakePaid(c, s, m, who, x) && ReservedOnly(c, m, t)
    ensures StakePaid(c, s, t, who, x)
  {
    hide IousSold, EntitledTo, VestingKept, OutsideOnly, PaysFirst;
    PaysSame(c, s, m, t, who, x);
    ReservedIsOutside(c, m, t);
    ReserveIous(c, s, m, t, who, Cum(c, s), Cum(c, m));
    ReserveEntitles(c, s, m, t, who, c.Shares(Cum(c, s), Cum(c, m)));
    SameListsVest(c, s, m, t, who, Cum(c, s), Cum(c, m));
  }

  lemma ReserveIous(c: Config, s: State, m: State, t: State, who: AccountId, lo: nat, hi: nat)
    requires c.AssetsDistinct() && IousSold(c, s, m, who, lo, hi) && OutsideOnly(c, m, t)
    ensures IousSold(c, s, t, who, lo, hi)
  {
    forall p, u | 1 <= p <= c.N()
      ensures t.Issued(c.At(p).iou) == m.Issued(c.At(p).iou)
      ensures Bal(t.free, c.At(p).iou, u) == Bal(m.free, c.At(p).iou, u)
    {
      c.IouFound(p);
    }
  }

  lemma ReserveEntitles(c: Config, s: State, m: State, t: State, who: AccountId, shares: int)
    requires EntitledTo(c, s, m, who, shares) && OutsideOnly(c, m, t)
    ensures EntitledTo(c, s, t, who, shares)
  {
    LockedSame(m, t);
    forall u ensures Entitled(c, t, u) == Entitled(c, m, u) { }
  }

  /** The calls `staking` accepts. */
  ghost predicate StakingAccepted(c: Config, s: State, who: AccountId, asset: AssetId, amount: nat)
    requires InPhase(c, s)
  {
    !s.paused && asset == c.collected && amount <= Bal(s.free, asset, who) && !StakeRefused(c, s, amount)
  }

  lemma StakeLeavesCollected(c: Config, s: State, m: State, who: AccountId, x: nat)
    requires c.AssetsDistinct() && StakeDone(c, s, m, who, x)
    ensures Bal(m.free, c.collected, who) == Bal(s.free, c.collected, who)
  {
  }

  lemma StakingEnds(c: Config, s: State, m: State, t: State, who: AccountId, x: nat)
    requires c.AssetsDistinct() && Inv(c, m) && StakePaid(c, s, m, who, x) && ReservedOnly(c, m, t)
    ensures Inv(c, t) && StakePaid(c, s, t, who, x)
  {
    hide *;
    ReservedIsOutside(c, m, t);
    OutsideKeepsInv(c, m, t);
    ReserveAfterStake(c, s, m, t, who, x);
  }

  // ---------------------------------------------------------------- redemption

  lemma BurnKeepsInv(c: Config, s: State, t: State, p: nat, amount: nat)
    requires c.AssetsDistinct() && 1 <= p <= c.N() && Inv(c, s)
    requires AssetBurned(s, t, c.At(p).iou, c.collection, amount) && SameIndex(s, t)
    ensures Inv(c, t)
  {
    c.IouFound(p);
    SameLaws(c, s, t);
  }

  /** What a redemption multiplies stays within 128 bits, for any amount of IOUs that exists. */
  lemma RedeemFits(c: Config, s: State, p: nat, amount: nat)
    requires c.WellFormed() && Core(c, s) && 1 <= p <= c.N() && amount <= s.Issued(c.At(p).iou)
    ensures var required := amount * c.At(p).exchange;
            && required <= MAX_BALANCE && required * (s.left - 1) <= MAX_BALANCE
            && LockedPart(c, p, s.left, required) <= required
    ensures s.Locked() + c.N() <= MAX_BALANCE
  {
    var required, cum := amount * c.At(p).exchange, Cum(c, s);
    PositionIsCanonical(c, s, s);
    SharesGrow(c, 0, cum, c.Capacity());
    IssuedWorth(c, s, p, amount);
    LockedBelow(c, s, p, amount);
    hide LockedPart;
    RoomOf(required, s.left - 1);
  }

  /** Issued IOUs are worth no more than everything ever staked. */
  lemma IssuedWorth(c: Config, s: State, p: nat, amount: nat)
    requires InPhase(c, s) && Capped(c, s) && 1 <= p <= c.N() && amount <= s.Issued(c.At(p).iou)
    ensures amount * c.At(p).exchange <= c.Shares(0, Cum(c, s))
  {
    var xs := c.Overlaps(0, Cum(c, s));
    assert amount <= xs[p - 1];
    MulMono(amount, xs[p - 1], c.At(p).exchange);
    WeighAtLeastOne(c, xs, p, c.N());
  }

  lemma RoomOf(x: nat, k: nat)
    requires x < 0x1_0000_0000_0000_0000_0000_0000 && k < 0x1_0000_0000
    ensures x * k <= MAX_BALANCE
  {
    MulMono(k, 0x1_0000_0000, x);
  }

  lemma LockedBelow(c: Config, s: State, p: nat, amount: nat)
    requires InPhase(c, s) && Capped(c, s) && 1 <= p <= c.N() && amount <= s.Issued(c.At(p).iou)
    ensures LockedPart(c, p, s.left, amount * c.At(p).exchange) <= amount * c.At(p).exchange
  {
    var required, n := amount * c.At(p).exchange, c.N() - p + 1;
    if p <= s.phase {
      MulMono(s.left - 1, n, required);
      QuotientBelow(required * (s.left - 1), n, required);
    } else {
      NothingSoldYet(c, s, p);
      QuotientBelow(required * (s.left - 1), n, required);
    }
  }

  lemma NothingSoldYet(c: Config, s: State, p: nat)
    requires InPhase(c, s) && Capped(c, s) && s.phase < p <= c.N()
    ensures s.Issued(c.At(p).iou) == 0
  {
    UptoMono(c, s.phase, p - 1);
    assert c.Overlap(p, 0, Cum(c, s)) == 0;
  }

  lemma QuotientBelow(a: nat, n: nat, b: nat)
    requires n > 0 && a <= b * n
    ensures a / n <= b
  {
    var q := a / n;
    assert a == q * n + a % n;
    if q > b { MulMono(b + 1, q, n); }
  }

  /** The calls `sudo_redeem` lets pass, up to the split of what stays locked. */
  ghost predicate RedeemAccepted(c: Config, s: State, who: AccountId, iou: AssetId, amount: nat)
    requires InPhase(c, s)
  {
    && !s.paused && c.IsIou(iou) && amount <= Bal(s.free, iou, who)
    && CheckCanRedeem(c, s.left, Bal(s.free, c.share, who), s.List(who), c.PhaseOf(iou), amount).Done?
  }

  /** The checks `redeem` makes before it burns the reserve. */
  ghost predicate RedeemChecked(c: Config, s: State, who: AccountId, iou: AssetId, amount: nat, price: nat)
    requires InPhase(c, s)
  {
    && !s.paused && c.IsIou(iou) && ReserveFits(price, amount) && ReserveHeld(c, s, price, amount)
    && CheckCanRedeem(c, s.left, Bal(s.free, c.share, who), s.List(who), c.PhaseOf(iou), amount).Done?
  }

  lemma ReserveTakenIs(c: Config, s: State, t: State, price: nat, amount: nat, v: nat)
    requires ReservedOnly(c, s, t) && ReserveIs(price, amount, v)
    requires AssetBurned(s, t, c.reservedAsset, c.reservedWallet, v)
    ensures ReserveTaken(c, s, t, price, amount)
  {
  }

  lemma ReserveFollows(c: Config, s: State, m: State, t: State, price: nat, x: nat, r: Outcome)
    requires ReserveKept(c, s, m)
    ensures ReserveMinted(c, m, t, price, x, r) ==> ReserveMinted(c, s, t, price, x, r)
  {
    hide ReserveIs;
    forall v: nat | ReserveGrows(c, m, t, v, r) ensures ReserveGrows(c, s, t, v, r) { }
  }

  /** Burning the reserve first makes no difference to what follows. */
  lemma ReserveBurned(c: Config, s: State, m: State, who: AccountId, iou: AssetId, amount: nat)
    requires c.AssetsDistinct() && InPhase(c, s) && c.IsIou(iou) && ReservedOnly(c, s, m)
    ensures Bal(m.free, c.share, who) == Bal(s.free, c.share, who) && m.List(who) == s.List(who)
    ensures Bal(m.free, iou, who) == Bal(s.free, iou, who)
    ensures LeavesUneven(c, s, who, c.PhaseOf(iou), amount) <==> LeavesUneven(c, m, who, c.PhaseOf(iou), amount)
  {
  }

  // ---------------------------------------------------------------- transfers

  /** Shares went from one account to another, and the index followed. */
  ghost predicate SharesMoved(c: Config, s: State, t: State, from: AccountId, to: AccountId, amount: nat)
  {
    && SamePosition(s, t) && t.unreleased == s.unreleased && t.issuance == s.issuance
    && (forall a, u :: Bal(t.free, a, u) == Bal(s.free, a, u)
          - (if a == c.share && u == from then amount else 0) + (if a == c.share && u == to then amount else 0))
    && (t.paused ==> t.everPaused || s.paused) && (s.everPaused ==> t.everPaused)
    && (!s.everPaused && Tracked(c, s) ==> !t.everPaused && Tracked(c, t) && t.circulation <= s.circulation)
  }

  lemma SharesMovedKeepsInv(c: Config, s: State, t: State, from: AccountId, to: AccountId, amount: nat)
    requires c.AssetsDistinct() && Inv(c, s) && SharesMoved(c, s, t, from, to, amount)
    ensures Inv(c, t)
  {
    SharesMovedBooks(c, s, t, from, to, amount);
    SharesMovedIndex(c, s, t, from, to, amount);
    assert InPhase(c, t) && PacksVest(c, t) && (t.paused ==> t.everPaused);
    hide *;
    assert Core(c, t) && Covered(c, t) by { InvParts(c, t); }
    InvParts(c, t);
  }

  lemma InvParts(c: Config, t: State)
    ensures Inv(c, t) <==> InPhase(c, t) && PacksVest(c, t) && Backed(c, t) && Capped(c, t) && Indexed(c, t)
                           && (t.paused ==> t.everPaused) && Covered(c, t)
    ensures Inv(c, t) <==> Core(c, t) && Covered(c, t)
  {
    hide InPhase, PacksVest, Backed, Capped, Indexed, Covered;
  }

  lemma SharesMovedBooks(c: Config, s: State, t: State, from: AccountId, to: AccountId, amount: nat)
    requires c.AssetsDistinct() && Inv(c, s) && SharesMoved(c, s, t, from, to, amount)
    ensures Backed(c, t) && Covered(c, t)
  {
    assert Backed(c, s) && Covered(c, s);
    hide Inv, Core, Backed, Covered, Tracked;
    BooksSame(c, s, t);
  }

  /** The backing laws need no more than the same supply, lists and outstanding IOUs. */
  lemma BooksSame(c: Config, s: State, t: State)
    requires c.IousDistinct() && t.unreleased == s.unreleased && t.Issued(c.share) == s.Issued(c.share)
    requires forall a ::
      c.IsIou(a) ==> t.Issued(a) - Bal(t.free, a, c.collection) == s.Issued(a) - Bal(s.free, a, c.collection)
    requires Bal(t.free, c.collected, c.collection) == Bal(s.free, c.collected, c.collection)
    requires (s.everPaused ==> t.everPaused) && Backed(c, s) && Covered(c, s)
    ensures Backed(c, t) && Covered(c, t)
  {
    LockedSame(s, t);
    OutstandingSame(c, s, t);
  }

  lemma SharesMovedIndex(c: Config, s: State, t: State, from: AccountId, to: AccountId, amount: nat)
    requires InPhase(c, s) && Capped(c, s) && Indexed(c, s) && SharesMoved(c, s, t, from, to, amount)
    ensures InPhase(c, t) && Capped(c, t) && Indexed(c, t)
  {
    LockedSame(s, t);
  }

  /** Any asset but shares moves between users, or the collected one to the collection account. */
  lemma MoveKeepsInv(c: Config, s: State, t: State, a: AssetId, from: AccountId, to: AccountId, amount: nat)
    requires c.AssetsDistinct() && Inv(c, s) && AssetMoved(s, t, a, from, to, amount) && a != c.share
    requires from != c.collection && (c.IsIou(a) ==> to != c.collection)
    ensures Inv(c, t)
  {
    SameLaws(c, s, t);
  }

  /** While the module is, or once was, paused: IOUs may end up in the collection account for
      nothing.  The books then have more than they need. */
  lemma StrandedKeepsInv(c: Config, s: State, t: State, iou: AssetId, from: AccountId, amount: nat)
    requires c.WellFormed() && Inv(c, s) && s.everPaused && c.IsIou(iou) && from != c.collection
    requires AssetMoved(s, t, iou, from, c.collection, amount)
    ensures Inv(c, t)
  {
    StrandedOutstanding(c, s, t, iou, from, amount);
    hide Inv, Outstanding;
    StrandedCore(c, s, t, iou, amount);
  }

  lemma StrandedOutstanding(c: Config, s: State, t: State, iou: AssetId, from: AccountId, amount: nat)
    requires c.AssetsDistinct() && c.IsIou(iou) && from != c.collection
    requires AssetMoved(s, t, iou, from, c.collection, amount)
    ensures c.Weigh(Outstanding(c, t), c.N()) <= c.Weigh(Outstanding(c, s), c.N())
    ensures SumInts(Outstanding(c, t), c.N()) <= SumInts(Outstanding(c, s), c.N())
  {
    var p := c.PhaseOf(iou);
    forall i | 0 <= i < c.N()
      ensures Outstanding(c, t)[i] == Outstanding(c, s)[i] + if i + 1 == p then -(amount as int) else 0
    {
      if i + 1 != p { IousApart(c, i + 1, p); }
      assert c.At(i + 1) == c.phases[i];
    }
    WeighOne(c, Outstanding(c, s), Outstanding(c, t), p, -(amount as int), c.N());
    MulMono(0, amount, c.At(p).exchange);
    assert c.At(p).exchange * -(amount as int) == -(c.At(p).exchange * amount);
  }

  lemma StrandedCore(c: Config, s: State, t: State, iou: AssetId, amount: nat)
    requires c.AssetsDistinct() && Inv(c, s) && s.everPaused && c.IsIou(iou)
    requires SamePosition(s, t) && t.unreleased == s.unreleased && t.issuance == s.issuance && SameIndex(s, t)
    requires Bal(t.free, c.collected, c.collection) == Bal(s.free, c.collected, c.collection)
    requires c.Weigh(Outstanding(c, t), c.N()) <= c.Weigh(Outstanding(c, s), c.N())
    requires SumInts(Outstanding(c, t), c.N()) <= SumInts(Outstanding(c, s), c.N())
    ensures Inv(c, t)
  {
    LockedSame(s, t);
  }

  /** A stake through a plain transfer: the collected asset arrives first. */
  lemma TransferStakes(c: Config, s: State, m: State, t: State, from: AccountId, amount: nat, staked: nat)
    requires c.AssetsDistinct() && Inv(c, s) && from != c.collection && staked <= amount
    requires AssetMoved(s, m, c.collected, from, c.collection, amount) && StakeDone(c, m, t, from, staked)
    ensures Inv(c, t)
  {
    SameLaws(c, s, m);
    StakeLeavesCollection(c, m, t, from, staked);
  }

  lemma StakeLeavesCollection(c: Config, s: State, t: State, who: AccountId, x: nat)
    requires c.AssetsDistinct() && StakeDone(c, s, t, who, x)
    ensures Bal(t.free, c.collected, c.collection) == Bal(s.free, c.collected, c.collection)
  {
  }
}
