/** Transfers with rio-saving's hooks, and what no call of somebody else takes from an account:
    its way out, and what it can get out. */
module TransferLaws {
  import opened Primitives
  import opened Books
  import opened VestingPacks
  import opened PackLists
  import opened SavingModel
  import opened SavingLaws
  import opened RedeemLaws
  import opened DispatchLaws
  import opened RoundTrip

  /** What an account holds of the collected asset, and what its IOUs entitle it to get back. */
  ghost function Wealth(c: Config, s: State, u: AccountId): int
  {
    Bal(s.free, c.collected, u) + SumInts(Held(c, s, u), c.N())
  }

  /** Shares of an account beyond what its IOUs are worth. */
  ghost function Surplus(c: Config, s: State, u: AccountId): int
  {
    Entitled(c, s, u) - c.Weigh(Held(c, s, u), c.N())
  }

  /** An account with a way out still has it, to the last unit. */
  ghost predicate Unharmed(c: Config, s: State, t: State, u: AccountId)
  {
    Pristine(c, s, u) ==>
      Pristine(c, t, u) && Wealth(c, t, u) == Wealth(c, s, u) && Surplus(c, t, u) == Surplus(c, s, u)
  }

  lemma UnharmedTwice(c: Config, s: State, m: State, t: State, u: AccountId)
    requires Unharmed(c, s, m, u) && Unharmed(c, m, t, u)
    ensures Unharmed(c, s, t, u)
  {
  }

  lemma SelfUnharmed(c: Config, s: State, u: AccountId)
    ensures Unharmed(c, s, s, u)
  {
  }

  lemma HeldSame(c: Config, s: State, t: State, u: AccountId)
    requires c.IousDistinct() && forall a :: c.IsIou(a) ==> Bal(t.free, a, u) == Bal(s.free, a, u)
    ensures SumInts(Held(c, t, u), c.N()) == SumInts(Held(c, s, u), c.N())
    ensures c.Weigh(Held(c, t, u), c.N()) == c.Weigh(Held(c, s, u), c.N())
  {
    forall i | 0 <= i < c.N() ensures Held(c, t, u)[i] == Held(c, s, u)[i] {
      c.IouFound(i + 1);
      assert c.At(i + 1) == c.phases[i];
    }
    WeighSame(c, Held(c, s, u), Held(c, t, u), c.N());
  }

  lemma BystanderUnharmed(c: Config, s: State, t: State, u: AccountId)
    requires c.AssetsDistinct() && t.left == s.left && t.List(u) == s.List(u)
    requires Bal(t.free, c.share, u) == Bal(s.free, c.share, u)
    requires Bal(t.free, c.collected, u) == Bal(s.free, c.collected, u)
    requires forall a :: c.IsIou(a) ==> Bal(t.free, a, u) == Bal(s.free, a, u)
    ensures Unharmed(c, s, t, u)
  {
    if Pristine(c, s, u) {
      PristineSame(c, s, t, u);
      HeldSame(c, s, t, u);
    }
  }

  lemma OutsideUnharmed(c: Config, s: State, t: State, u: AccountId)
    requires c.AssetsDistinct() && OutsideOnly(c, s, t)
    ensures Unharmed(c, s, t, u)
  {
    BystanderUnharmed(c, s, t, u);
  }

  /** A sale gives the buyer IOUs and as many shares as they are worth, and leaves others alone. */
  lemma SaleVests(c: Config, s: State, t: State, who: AccountId, lo: nat, hi: nat, u: AccountId)
    requires IousSold(c, s, t, who, lo, hi) && VestingKept(c, s, t, who, lo, hi) && VestedShare(c, s, u)
    ensures VestedShare(c, t, u)
  {
    hide ShareOf, Config.Overlap;
    forall p | 1 <= p <= c.N() ensures ShareAt(c, t, u, p) {
      assert ShareAt(c, s, u, p);
    }
  }

  lemma SaleKeepsPristine(c: Config, s: State, t: State, who: AccountId, lo: nat, hi: nat, u: AccountId)
    requires lo <= hi && IousSold(c, s, t, who, lo, hi) && EntitledTo(c, s, t, who, c.Shares(lo, hi))
    requires VestingKept(c, s, t, who, lo, hi)
    requires Pristine(c, s, u)
    ensures Pristine(c, t, u) && Surplus(c, t, u) == Surplus(c, s, u)
  {
    SaleVests(c, s, t, who, lo, hi, u);
    assert Entitled(c, t, u) == Entitled(c, s, u) + if u == who then c.Shares(lo, hi) else 0;
    hide VestingKept, VestedShare, EntitledTo, Entitled;
    forall i | 0 <= i < c.N()
      ensures Held(c, t, u)[i] == Held(c, s, u)[i] + if u == who then c.Overlaps(lo, hi)[i] else 0
    {
      assert c.At(i + 1) == c.phases[i];
    }
    if u == who {
      WeighSum(c, Held(c, s, u), c.Overlaps(lo, hi), Held(c, t, u), c.N());
    } else {
      WeighSame(c, Held(c, s, u), Held(c, t, u), c.N());
    }
  }

  lemma SaleHeld(c: Config, s: State, t: State, who: AccountId, lo: nat, hi: nat, u: AccountId)
    requires lo <= hi <= c.Capacity() && IousSold(c, s, t, who, lo, hi)
    ensures SumInts(Held(c, t, u), c.N()) == SumInts(Held(c, s, u), c.N()) + if u == who then hi - lo else 0
  {
    forall i | 0 <= i < c.N()
      ensures Held(c, t, u)[i] == Held(c, s, u)[i] + if u == who then c.Overlaps(lo, hi)[i] else 0
    {
      assert c.At(i + 1) == c.phases[i];
    }
    if u == who {
      WeighSum(c, Held(c, s, u), c.Overlaps(lo, hi), Held(c, t, u), c.N());
      OverlapsSum(c, lo, hi, c.N());
    } else {
      WeighSame(c, Held(c, s, u), Held(c, t, u), c.N());
    }
  }

  /** A paid stake costs nobody anything: the staker holds IOUs instead of the collected asset. */
  lemma StakeUnharmed(c: Config, s: State, t: State, who: AccountId, x: nat, u: AccountId)
    requires c.WellFormed() && StakePaid(c, s, t, who, x)
    ensures Unharmed(c, s, t, u)
  {
    if Pristine(c, s, u) {
      PositionIsCanonical(c, t, t);
      var lo, hi := Cum(c, s), Cum(c, t);
      assert IousSold(c, s, t, who, lo, hi) && EntitledTo(c, s, t, who, c.Shares(lo, hi));
      assert VestingKept(c, s, t, who, lo, hi);
      hide IousSold, EntitledTo, VestingKept;
      SaleKeepsPristine(c, s, t, who, lo, hi, u);
      SaleHeld(c, s, t, who, lo, hi, u);
    }
  }

  /** Somebody's redemption leaves everybody else as they were. */
  lemma RedeemUnharmed(c: Config, s: State, t: State, who: AccountId, p: nat, amount: nat, burnt: bool, u: AccountId)
    requires c.AssetsDistinct() && u != who && 1 <= p <= c.N() && s.left >= 1
    requires RedeemedFor(c, s, t, who, p, amount, burnt)
    ensures Unharmed(c, s, t, u)
  {
    hide RedeemTake, PacksVest, Pristine;
    if Pristine(c, s, u) {
      RedeemKeepsOthersWay(c, s, t, who, p, amount, burnt, u);
      NotCollection(c, s, u);
      c.IouFound(p);
      HeldSame(c, s, t, u);
    }
  }

  lemma NotCollection(c: Config, s: State, u: AccountId)
    requires Pristine(c, s, u)
    ensures u != c.collection
  {
  }

  // ---------------------------------------------------------------- a transfer

  /** Transfers that leave `u` alone: it neither sends nor receives any of the module's assets. */
  ghost predicate LeavesAlone(c: Config, a: AssetId, from: AccountId, to: AccountId, u: AccountId)
  {
    (u != from && u != to) || from == to || (a != c.collected && a != c.share && !c.IsIou(a))
  }

  /** A completed transfer.  A pause, or a transfer to oneself, silences the hooks.  Shares are
      tracked; the collected asset, sent to the collection account, is staked, and kept where
      the schedule has no room for it; IOUs sent there are redeemed.  `mid` is the state
      between the transfer and the hook. */
  ghost predicate Transferred(c: Config, s: State, mid: State, t: State, a: AssetId, from: AccountId, to: AccountId,
                              amount: nat)
  {
    if s.paused || from == to then AssetMoved(s, t, a, from, to, amount)
    else if a == c.share then SharesMoved(c, s, t, from, to, amount)
    else if a == c.collected && to == c.collection then
      && AssetMoved(s, mid, a, from, to, amount) && InPhase(c, mid)
      && (if StakeRefused(c, mid, amount) then t == mid
          else 0 < Fitting(c, mid, amount) <= amount && StakeDone(c, mid, t, from, Fitting(c, mid, amount)))
    else if c.IsIou(a) && to == c.collection then
      && InPhase(c, s) && RedeemAccepted(c, s, from, a, amount)
      && RedeemedFor(c, s, t, from, c.PhaseOf(a), amount, false)
    else AssetMoved(s, t, a, from, to, amount)
  }

  lemma SelfMove(c: Config, s: State, t: State, a: AssetId, u: AccountId, amount: nat)
    requires AssetMoved(s, t, a, u, u, amount)
    ensures OutsideOnly(c, s, t)
  {
  }

  lemma PausedShares(c: Config, s: State, t: State, from: AccountId, to: AccountId, amount: nat)
    requires s.everPaused && AssetMoved(s, t, c.share, from, to, amount)
    ensures SharesMoved(c, s, t, from, to, amount)
  {
  }

  lemma PlainMoveKeepsInv(c: Config, s: State, t: State, a: AssetId, from: AccountId, to: AccountId, amount: nat)
    requires c.WellFormed() && Inv(c, s) && AssetMoved(s, t, a, from, to, amount) && from != c.collection
    requires s.paused || from == to || (a != c.share && (c.IsIou(a) ==> to != c.collection))
    ensures Inv(c, t)
  {
    hide Covered;
    assert s.paused ==> s.everPaused;
    assert c.AssetsDistinct();
    hide *;
    if from == to {
      SelfMove(c, s, t, a, from, amount);
      OutsideKeepsInv(c, s, t);
    } else if a == c.share {
      PausedShares(c, s, t, from, to, amount);
      SharesMovedKeepsInv(c, s, t, from, to, amount);
    } else if c.IsIou(a) && to == c.collection {
      StrandedKeepsInv(c, s, t, a, from, amount);
    } else {
      MoveKeepsInv(c, s, t, a, from, to, amount);
    }
  }

  lemma MoveUnharmed(c: Config, s: State, t: State, a: AssetId, from: AccountId, to: AccountId, amount: nat,
                     u: AccountId)
    requires c.AssetsDistinct() && LeavesAlone(c, a, from, to, u) && AssetMoved(s, t, a, from, to, amount)
    ensures Unharmed(c, s, t, u)
  {
    hide Unharmed;
    BystanderUnharmed(c, s, t, u);
  }

  lemma SharesUnharmed(c: Config, s: State, t: State, from: AccountId, to: AccountId, amount: nat, u: AccountId)
    requires c.AssetsDistinct() && u != from && u != to && SharesMoved(c, s, t, from, to, amount)
    ensures Unharmed(c, s, t, u)
  {
    hide Unharmed;
    BystanderUnharmed(c, s, t, u);
  }

  lemma StakedUnharmed(c: Config, m: State, t: State, who: AccountId, x: nat, u: AccountId)
    requires c.WellFormed() && StakeDone(c, m, t, who, x) && u != who
    ensures Unharmed(c, m, t, u)
  {
    if Pristine(c, m, u) {
      PositionIsCanonical(c, t, t);
      var lo, hi := Cum(c, m), Cum(c, t);
      assert Bal(t.free, c.collected, u) == Bal(m.free, c.collected, u);
      assert IousSold(c, m, t, who, lo, hi) && EntitledTo(c, m, t, who, c.Shares(lo, hi));
      assert VestingKept(c, m, t, who, lo, hi);
      hide IousSold, EntitledTo, VestingKept, OthersKept;
      SaleKeepsPristine(c, m, t, who, lo, hi, u);
      SaleHeld(c, m, t, who, lo, hi, u);
    }
  }

  /** No transfer harms an account it leaves alone, whatever the hooks make of it. */
  lemma TransferUnharmed(c: Config, s: State, mid: State, t: State, a: AssetId, from: AccountId, to: AccountId,
                         amount: nat, u: AccountId)
    requires c.WellFormed() && LeavesAlone(c, a, from, to, u) && Transferred(c, s, mid, t, a, from, to, amount)
    ensures Unharmed(c, s, t, u)
  {
    hide AssetMoved, SharesMoved, StakeDone, RedeemedFor, StakeRefused, Fitting, Unharmed, RedeemAccepted;
    if s.paused || from == to {
      MoveUnharmed(c, s, t, a, from, to, amount, u);
    } else if a == c.share {
      SharesUnharmed(c, s, t, from, to, amount, u);
    } else if a == c.collected && to == c.collection {
      MoveUnharmed(c, s, mid, a, from, to, amount, u);
      if !StakeRefused(c, mid, amount) {
        StakedUnharmed(c, mid, t, from, Fitting(c, mid, amount), u);
        UnharmedTwice(c, s, mid, t, u);
      }
    } else if c.IsIou(a) && to == c.collection {
      RedeemUnharmed(c, s, t, from, c.PhaseOf(a), amount, false, u);
    } else {
      MoveUnharmed(c, s, t, a, from, to, amount, u);
    }
  }

  /** A stake through a transfer of one's own.  The account keeps its way out and its surplus; what it
      loses is what the schedule does not take, and, while the module is paused, all of it. */
  lemma OwnTransferStakes(c: Config, s: State, mid: State, t: State, u: AccountId, amount: nat)
    requires c.WellFormed() && InPhase(c, s) && Pristine(c, s, u)
    requires Transferred(c, s, mid, t, c.collected, u, c.collection, amount)
    ensures Pristine(c, t, u) && Surplus(c, t, u) == Surplus(c, s, u)
    ensures Wealth(c, t, u) == Wealth(c, s, u) - amount + if s.paused then 0 else Min(amount, c.Capacity() - Cum(c, s))
  {
    hide AssetMoved, StakeDone, StakeRefused, Fitting, Pristine, Wealth, Surplus, Cum;
    NotCollection(c, s, u);
    if s.paused {
      OwnMove(c, s, t, u, amount);
    } else {
      OwnMove(c, s, mid, u, amount);
      RefusedOrFits(c, s, mid, u, amount);
      if !StakeRefused(c, mid, amount) { OwnStake(c, mid, t, u, Fitting(c, mid, amount)); }
    }
  }

  lemma OwnMove(c: Config, s: State, m: State, u: AccountId, amount: nat)
    requires c.AssetsDistinct() && Pristine(c, s, u) && AssetMoved(s, m, c.collected, u, c.collection, amount)
    ensures Pristine(c, m, u) && Surplus(c, m, u) == Surplus(c, s, u) && Wealth(c, m, u) == Wealth(c, s, u) - amount
  {
    assert u != c.collection && m.List(u) == s.List(u);
    hide Pristine;
    PristineSame(c, s, m, u);
    HeldSame(c, s, m, u);
  }

  lemma RefusedOrFits(c: Config, s: State, m: State, u: AccountId, amount: nat)
    requires c.WellFormed() && InPhase(c, s) && AssetMoved(s, m, c.collected, u, c.collection, amount)
    ensures InPhase(c, m)
    ensures StakeRefused(c, m, amount) ==> Min(amount, c.Capacity() - Cum(c, s)) == 0
    ensures Fitting(c, m, amount) == Min(amount, c.Capacity() - Cum(c, s))
  {
    TakesWhatFits(c, s);
  }

  lemma OwnStake(c: Config, m: State, t: State, u: AccountId, x: nat)
    requires c.WellFormed() && Pristine(c, m, u) && StakeDone(c, m, t, u, x)
    ensures Pristine(c, t, u) && Surplus(c, t, u) == Surplus(c, m, u) && Wealth(c, t, u) == Wealth(c, m, u) + x
  {
    PositionIsCanonical(c, t, t);
    var lo, hi := Cum(c, m), Cum(c, t);
    assert Bal(t.free, c.collected, u) == Bal(m.free, c.collected, u);
    assert IousSold(c, m, t, u, lo, hi) && EntitledTo(c, m, t, u, c.Shares(lo, hi)) && VestingKept(c, m, t, u, lo, hi);
    hide IousSold, EntitledTo, VestingKept, OthersKept;
    SaleKeepsPristine(c, m, t, u, lo, hi, u);
    SaleHeld(c, m, t, u, lo, hi, u);
  }

  /** The stakes by transfer that lose nothing: those that fit into what is left of the schedule,
      while the module runs. */
  ghost predicate StakeFits(c: Config, s: State, amount: nat)
  {
    amount == 0 || (!s.paused && InPhase(c, s) && amount <= c.Capacity() - Cum(c, s))
  }

  /** A transfer stake of one's own costs nothing exactly if it fits. */
  lemma OwnTransferLosesNothing(c: Config, s: State, mid: State, t: State, u: AccountId, amount: nat)
    requires c.WellFormed() && InPhase(c, s) && Pristine(c, s, u)
    requires Transferred(c, s, mid, t, c.collected, u, c.collection, amount)
    ensures Unharmed(c, s, t, u) <==> StakeFits(c, s, amount)
    ensures Wealth(c, t, u) == Wealth(c, s, u) <==> StakeFits(c, s, amount)
  {
    hide Transferred, Pristine, Wealth, Surplus, Cum;
    OwnTransferStakes(c, s, mid, t, u, amount);
    assert Cum(c, s) <= c.Capacity() by { TakesWhatFits(c, s); }
  }

  // ---------------------------------------------------------------- getting out

  /** All IOUs of a phase handed in: nothing of the phase is left, and nothing is lost. */
  ghost predicate PhaseCleared(c: Config, s: State, t: State, u: AccountId, p: nat)
    requires 1 <= p <= c.N()
  {
    && Pristine(c, t, u) && Wealth(c, t, u) == Wealth(c, s, u) && Surplus(c, t, u) == Surplus(c, s, u)
    && (forall q :: 1 <= q <= c.N() ==>
         Bal(t.free, c.At(q).iou, u) == if q == p then 0 else Bal(s.free, c.At(q).iou, u))
  }

  /** All IOUs of a phase, `amount` of them, pass the check and take the phase's locked shares with them. */
  ghost predicate WholePhase(c: Config, s: State, u: AccountId, p: nat, amount: nat)
    requires 1 <= p <= c.N()
  {
    && InPhase(c, s) && RedeemAccepted(c, s, u, c.At(p).iou, amount) && !LeavesUneven(c, s, u, p, amount)
    && RedeemTake(c, s, u, p, amount).1 == PhaseTotal(s.List(u), c.share, p)
    && RedeemTake(c, s, u, p, amount).0 + RedeemTake(c, s, u, p, amount).1 == amount * c.At(p).exchange
  }

  lemma ClearsPhase(c: Config, s: State, t: State, u: AccountId, p: nat, amount: nat)
    requires c.WellFormed() && Pristine(c, s, u) && 1 <= p <= c.N() && s.left >= 1
    requires amount == Bal(s.free, c.At(p).iou, u) && RedeemedFor(c, s, t, u, p, amount, false)
    requires RedeemTake(c, s, u, p, amount).1 == PhaseTotal(s.List(u), c.share, p)
    requires RedeemTake(c, s, u, p, amount).0 + RedeemTake(c, s, u, p, amount).1 == amount * c.At(p).exchange
    ensures PhaseCleared(c, s, t, u, p)
  {
    hide Pristine, RedeemedFor, RedeemTake, Entitled, Held;
    RedeemKeepsOwnWay(c, s, t, u, p, amount, false);
  }

  /** The account has its stake back, nothing locked, and only the shares its IOUs were never worth. */
  ghost predicate Out(c: Config, s: State, t: State, u: AccountId)
  {
    && Bal(t.free, c.collected, u) == Wealth(c, s, u)
    && Bal(t.free, c.share, u) == Surplus(c, s, u) && ListTotal(t.List(u)) == 0
    && forall p :: 1 <= p <= c.N() ==> Bal(t.free, c.At(p).iou, u) == 0
  }

  /** The first `k` phases of `order` are cleared. */
  ghost predicate ClearedUpTo(c: Config, s: State, t: State, u: AccountId, order: seq<nat>, k: nat)
    requires k <= |order| && forall i :: 0 <= i < |order| ==> 1 <= order[i] <= c.N()
  {
    && Pristine(c, t, u) && Wealth(c, t, u) == Wealth(c, s, u) && Surplus(c, t, u) == Surplus(c, s, u)
    && forall i :: 0 <= i < k ==> Bal(t.free, c.At(order[i]).iou, u) == 0
  }

  lemma ClearsOneMore(c: Config, s: State, m: State, t: State, u: AccountId, order: seq<nat>, k: nat)
    requires k < |order| && forall i :: 0 <= i < |order| ==> 1 <= order[i] <= c.N()
    requires ClearedUpTo(c, s, m, u, order, k) && PhaseCleared(c, m, t, u, order[k])
    ensures ClearedUpTo(c, s, t, u, order, k + 1)
  {
    hide Pristine, Wealth, Surplus;
    forall i | 0 <= i < k + 1 ensures Bal(t.free, c.At(order[i]).iou, u) == 0 {
      assert i < k ==> Bal(m.free, c.At(order[i]).iou, u) == 0;
    }
  }

  lemma AllCleared(c: Config, s: State, t: State, u: AccountId, order: seq<nat>)
    requires forall i :: 0 <= i < |order| ==> 1 <= order[i] <= c.N()
    requires forall p :: 1 <= p <= c.N() ==> p in order
    requires Core(c, t) && ClearedUpTo(c, s, t, u, order, |order|)
    ensures Out(c, s, t, u)
  {
    forall p | 1 <= p <= c.N() ensures Bal(t.free, c.At(p).iou, u) == 0 {
      assert p in order;
    }
    NothingLeft(c, t, u);
    forall i | 0 <= i < c.N() ensures Held(c, t, u)[i] == 0 { assert c.At(i + 1) == c.phases[i]; }
    WeighZero(c, Held(c, t, u), c.N());
  }

  /** Whoever holds no IOUs, shares or packs is pristine, with nothing to spare. */
  lemma EmptyIsPristine(c: Config, s: State, u: AccountId)
    requires u != c.collection && s.List(u) == [] && Bal(s.free, c.share, u) == 0 && s.left >= 1
    requires forall p :: 1 <= p <= c.N() ==> Bal(s.free, c.At(p).iou, u) == 0
    ensures Pristine(c, s, u) && Wealth(c, s, u) == Bal(s.free, c.collected, u) && Surplus(c, s, u) == 0
  {
    forall i | 0 <= i < c.N() ensures Held(c, s, u)[i] == 0 { assert c.At(i + 1) == c.phases[i]; }
    WeighZero(c, Held(c, s, u), c.N());
    forall p | 1 <= p <= c.N() ensures ShareAt(c, s, u, p) { }
  }
}
