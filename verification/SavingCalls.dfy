/** The calls of rio-saving, and what every single one of them keeps. */
module SavingCalls {
  import opened Primitives
  import opened Books
  import opened VestingPacks
  import opened PackLists
  import opened SavingModel
  import opened SavingLaws
  import opened RedeemLaws
  import opened DispatchLaws
  import opened RoundTrip
  import opened TransferLaws
  import opened Pieces
  import opened Claims
  import opened StakePanicLaws
  import opened BonusLaws

  /** `Block` stands for the start of a block at a given time. */
  datatype Call =
    | Stake(who: AccountId, asset: AssetId, amount: nat, price: nat)
    | Redeem(who: AccountId, iou: AssetId, amount: nat, price: nat)
    | SudoRedeem(who: AccountId, iou: AssetId, amount: nat)
    | Transfer(asset: AssetId, from: AccountId, to: AccountId, amount: nat)
    | SetPaused(on: bool)
    | ForceBonus
    | Block(now: nat)
  {
    /** The account whose balances the call is about to spend. */
    predicate SpendsFrom(u: AccountId)
    {
      match this
      case Stake(who, _, _, _) => u == who
      case Redeem(who, _, _, _) => u == who
      case SudoRedeem(who, _, _) => u == who
      case Transfer(_, from, _, _) => u == from
      case _ => false
    }

    /** Calls that cost `u` nothing in state `s`: others may do as they like, except for sending it
        the module's assets; `u` itself may stake, by transfer only what fits, and redeem safe pieces. */
    ghost predicate Spares(c: Config, s: State, u: AccountId)
    {
      match this
      case Redeem(who, iou, amount, _) => u != who || SafeToRedeem(c, s, u, iou, amount)
      case SudoRedeem(who, iou, amount) => u != who || SafeToRedeem(c, s, u, iou, amount)
      case Transfer(a, from, to, amount) =>
        || LeavesAlone(c, a, from, to, u)
        || (u == from && to == c.collection && a == c.collected && StakeFits(c, s, amount))
        || (u == from && to == c.collection && c.IsIou(a) && !s.paused && SafeToRedeem(c, s, u, a, amount))
      case _ => true
    }

    /** Calls that leave the claim of `u` alone.  Others may do as they like, and send it what they like;
        `u` itself may stake, by transfer only what fits, and redeem safe pieces of the claim. */
    ghost predicate Respects(c: Config, s: State, u: AccountId, ys: seq<nat>)
    {
      match this
      case Redeem(who, iou, amount, _) => u != who || ClaimedPiece(c, s, u, ys, iou, amount)
      case SudoRedeem(who, iou, amount) => u != who || ClaimedPiece(c, s, u, ys, iou, amount)
      case Transfer(a, from, to, amount) =>
        || u != from || from == to || (a != c.collected && a != c.share && !c.IsIou(a))
        || (to == c.collection && a == c.collected && StakeFits(c, s, amount))
        || (to == c.collection && c.IsIou(a) && !s.paused && ClaimedPiece(c, s, u, ys, a, amount))
      case _ => true
    }
  }

  ghost predicate ClaimedPiece(c: Config, s: State, u: AccountId, ys: seq<nat>, iou: AssetId, amount: nat)
  {
    c.IsIou(iou) ==> PieceOfClaim(c, s, u, ys, c.PhaseOf(iou), amount)
  }

  /** The claim after a call: what `u` gains or spends by its own calls counts, what others send does not. */
  ghost function Next(c: Config, call: Call, s: State, t: State, u: AccountId, ys: seq<nat>): seq<nat>
    requires |ys| == c.N()
  {
    if call.SpendsFrom(u) then
      seq(c.N(), i requires 0 <= i < c.N() => Max(0, ys[i] + Held(c, t, u)[i] - Held(c, s, u)[i]))
    else ys
  }

  /** Every claim the call respects is kept, at its worth. */
  ghost predicate ClaimsKept(c: Config, call: Call, s: State, t: State)
  {
    forall u, ys: seq<nat> :: |ys| == c.N() && Claim(c, s, u, ys) && call.Respects(c, s, u, ys) ==>
      Kept(c, s, t, u, ys, Next(c, call, s, t, u, ys))
  }

  ghost predicate SafeToRedeem(c: Config, s: State, u: AccountId, iou: AssetId, amount: nat)
  {
    c.IsIou(iou) ==> s.left >= 1 && PieceSafe(c, s, u, c.PhaseOf(iou), amount)
  }

  /** What every call keeps: the laws, everybody's way out, and the pause switch, which only root turns. */
  ghost predicate Step(c: Config, call: Call, s: State, t: State)
  {
    && Inv(c, t)
    && (forall u :: call.Spares(c, s, u) ==> Unharmed(c, s, t, u))
    && ClaimsKept(c, call, s, t)
    && (s.everPaused ==> t.everPaused)
    && (!call.SetPaused? && !s.everPaused ==> !t.everPaused)
  }

  // ---------------------------------------------------------------- claims

  lemma NextSame(c: Config, call: Call, s: State, t: State, u: AccountId, ys: seq<nat>)
    requires c.IousDistinct() && |ys| == c.N() && forall a :: c.IsIou(a) ==> Bal(t.free, a, u) == Bal(s.free, a, u)
    ensures Next(c, call, s, t, u, ys) == ys
  {
    forall i | 0 <= i < c.N() ensures Held(c, t, u)[i] == Held(c, s, u)[i] {
      c.IouFound(i + 1);
      assert c.At(i + 1) == c.phases[i];
    }
  }

  lemma NextGrown(c: Config, call: Call, s: State, t: State, u: AccountId, lo: nat, hi: nat, ys: seq<nat>)
    requires |ys| == c.N() && call.SpendsFrom(u) && IousSold(c, s, t, u, lo, hi)
    ensures Next(c, call, s, t, u, ys) == Grown(c, ys, true, lo, hi)
  {
    forall i | 0 <= i < c.N() ensures Held(c, t, u)[i] == Held(c, s, u)[i] + c.Overlap(i + 1, lo, hi) {
      assert c.At(i + 1) == c.phases[i];
    }
  }

  lemma NextPiece(c: Config, call: Call, s: State, t: State, u: AccountId, p: nat, x: nat, ys: seq<nat>)
    requires |ys| == c.N() && call.SpendsFrom(u) && 1 <= p <= c.N() && x <= ys[p - 1]
    requires forall q ::
      1 <= q <= c.N() ==> Bal(t.free, c.At(q).iou, u) == Bal(s.free, c.At(q).iou, u) - if q == p then x else 0
    ensures Next(c, call, s, t, u, ys) == ys[p - 1 := ys[p - 1] - x]
  {
    forall i | 0 <= i < c.N() ensures Held(c, t, u)[i] == Held(c, s, u)[i] - if i + 1 == p then x else 0 {
      assert c.At(i + 1) == c.phases[i];
    }
  }

  /** Where the account loses nothing, its claims stand, if its IOUs stay as they are or the call was not its own. */
  lemma Stands(c: Config, call: Call, s: State, t: State, u: AccountId, ys: seq<nat>)
    requires c.AssetsDistinct() && Claim(c, s, u, ys) && NothingTaken(c, s, t, u)
    requires !call.SpendsFrom(u) || forall a :: c.IsIou(a) ==> Bal(t.free, a, u) == Bal(s.free, a, u)
    ensures Kept(c, s, t, u, ys, Next(c, call, s, t, u, ys))
  {
    hide Kept, NothingTaken;
    if call.SpendsFrom(u) { NextSame(c, call, s, t, u, ys); }
    ClaimStands(c, s, t, u, ys);
  }

  lemma OutsideClaims(c: Config, call: Call, s: State, t: State)
    requires c.AssetsDistinct() && OutsideOnly(c, s, t)
    ensures ClaimsKept(c, call, s, t)
  {
    hide Claim, Kept, Call.Respects, Next, Call.SpendsFrom;
    forall u, ys: seq<nat> | |ys| == c.N() && Claim(c, s, u, ys)
      ensures Kept(c, s, t, u, ys, Next(c, call, s, t, u, ys))
    {
      assert s.List(u) == t.List(u);
      Stands(c, call, s, t, u, ys);
    }
  }

  lemma StakeClaims(c: Config, call: Call, s: State, t: State, who: AccountId, x: nat)
    requires c.WellFormed() && StakePaid(c, s, t, who, x) && call.Stake? && call.who == who
    ensures ClaimsKept(c, call, s, t)
  {
    assert InPhase(c, s) && InPhase(c, t) && IousSold(c, s, t, who, Cum(c, s), Cum(c, t));
    hide Claim, Kept, StakePaid, IousSold, Next;
    forall u, ys: seq<nat> | |ys| == c.N() && Claim(c, s, u, ys)
      ensures Kept(c, s, t, u, ys, Next(c, call, s, t, u, ys))
    {
      ClaimSize(c, s, u, ys);
      PaidStakeKeepsClaim(c, s, t, who, x, u, ys);
      if u == who { NextGrown(c, call, s, t, u, Cum(c, s), Cum(c, t), ys); } else { NextOther(c, call, s, t, u, ys); }
    }
  }

  lemma ClaimSize(c: Config, s: State, u: AccountId, ys: seq<nat>)
    requires Claim(c, s, u, ys)
    ensures |ys| == c.N() && u != c.collection
  {
  }

  lemma NextOther(c: Config, call: Call, s: State, t: State, u: AccountId, ys: seq<nat>)
    requires |ys| == c.N() && !call.SpendsFrom(u)
    ensures Next(c, call, s, t, u, ys) == ys == Grown(c, ys, false, 0, 0)
    ensures forall lo: nat, hi: nat :: Grown(c, ys, false, lo, hi) == ys
  {
  }

  lemma RedeemClaims(c: Config, call: Call, s: State, m: State, t: State, who: AccountId, iou: AssetId, amount: nat)
    requires c.WellFormed() && ReservedOnly(c, s, m) && InPhase(c, s) && RedeemAccepted(c, s, who, iou, amount)
    requires m.left >= 1
    requires RedeemedFor(c, m, t, who, c.PhaseOf(iou), amount, true)
    requires (call.Redeem? || call.SudoRedeem?) && call.who == who && call.iou == iou && call.amount == amount
    ensures ClaimsKept(c, call, s, t)
  {
    var p := c.PhaseOf(iou);
    assert c.IsIou(iou) && m.left == s.left;
    hide Claim, Kept, RedeemedFor, ReservedOnly, Next, PieceOfClaim, RedeemAccepted, Config.WellFormed;
    forall u, ys: seq<nat> | |ys| == c.N() && Claim(c, s, u, ys) && call.Respects(c, s, u, ys)
      ensures Kept(c, s, t, u, ys, Next(c, call, s, t, u, ys))
    {
      ClaimSize(c, s, u, ys);
      if u != who {
        BystandersClaim(c, call, s, m, t, who, p, amount, u, ys);
      } else {
        OwnersClaim(c, call, s, m, t, u, iou, amount, ys);
      }
    }
  }

  lemma BystandersClaim(c: Config, call: Call, s: State, m: State, t: State, who: AccountId, p: nat, amount: nat,
                        u: AccountId, ys: seq<nat>)
    requires c.WellFormed() && ReservedOnly(c, s, m) && 1 <= p <= c.N() && m.left >= 1
    requires RedeemedFor(c, m, t, who, p, amount, true)
    requires u != who && !call.SpendsFrom(u) && Claim(c, s, u, ys)
    ensures Kept(c, s, t, u, ys, Next(c, call, s, t, u, ys))
  {
    ClaimSize(c, s, u, ys);
    assert NothingTaken(c, m, t, u) by { OthersLoseNothing(c, m, t, who, p, amount, true, u); }
    assert NothingTaken(c, s, m, u) by { assert s.List(u) == m.List(u); }
    hide RedeemedFor, Claim, Kept, ReservedOnly;
    assert NothingTaken(c, s, t, u);
    hide NothingTaken;
    Stands(c, call, s, t, u, ys);
  }

  lemma OthersLoseNothing(c: Config, m: State, t: State, who: AccountId, p: nat, amount: nat, burnt: bool, u: AccountId)
    requires c.AssetsDistinct() && 1 <= p <= c.N() && m.left >= 1 && RedeemedFor(c, m, t, who, p, amount, burnt)
    requires u != who && u != c.collection
    ensures NothingTaken(c, m, t, u)
  {
    hide RedeemTake, PacksVest, PhaseTotal, ListTotal;
    c.IouFound(p);
  }

  lemma OwnersClaim(c: Config, call: Call, s: State, m: State, t: State, u: AccountId, iou: AssetId, amount: nat,
                    ys: seq<nat>)
    requires c.WellFormed() && ReservedOnly(c, s, m) && InPhase(c, s) && RedeemAccepted(c, s, u, iou, amount)
    requires m.left >= 1
    requires RedeemedFor(c, m, t, u, c.PhaseOf(iou), amount, true) && call.SpendsFrom(u)
    requires Claim(c, s, u, ys) && PieceOfClaim(c, s, u, ys, c.PhaseOf(iou), amount)
    ensures Kept(c, s, t, u, ys, Next(c, call, s, t, u, ys))
  {
    var p := c.PhaseOf(iou);
    ClaimSize(c, s, u, ys);
    ReserveBurned(c, s, m, u, iou, amount);
    ReserveLeavesClaim(c, s, m, u, ys, p, amount);
    assert CheckCanRedeem(c, m.left, Bal(m.free, c.share, u), m.List(u), p, amount).Done?;
    OwnIous(c, m, t, u, p, amount, RedeemTake(c, m, u, p, amount).0, true);
    forall q | 1 <= q <= c.N() ensures Bal(m.free, c.At(q).iou, u) == Bal(s.free, c.At(q).iou, u) { c.IouFound(q); }
    assert amount <= ys[p - 1];
    hide RedeemedFor, Claim, Kept, PieceOfClaim, CheckCanRedeem, RedeemTake, ReservedOnly, RedeemAccepted;
    PieceKeepsClaim(c, m, t, u, ys, p, amount, true);
    KeptTwice(c, s, m, t, u, ys, ys, ys[p - 1 := ys[p - 1] - amount]);
    NextPiece(c, call, s, t, u, p, amount, ys);
  }

  /** The reserve is none of the account's business. */
  lemma ReserveLeavesClaim(c: Config, s: State, m: State, u: AccountId, ys: seq<nat>, p: nat, x: nat)
    requires c.WellFormed() && ReservedOnly(c, s, m) && Claim(c, s, u, ys) && 1 <= p <= c.N()
    requires PieceOfClaim(c, s, u, ys, p, x)
    ensures Kept(c, s, m, u, ys, ys) && PieceOfClaim(c, m, u, ys, p, x)
  {
    assert NothingTaken(c, s, m, u) by { assert s.List(u) == m.List(u); }
    ClaimSize(c, s, u, ys);
    var a, b := Trim(c, s, u, ys), Trim(c, m, u, ys);
    assert PieceSafe(c, a, u, p, x) && x <= ys[p - 1] && s.left >= 1 && m.left == s.left && m.List(u) == s.List(u);
    assert Bal(m.free, c.share, u) == Bal(s.free, c.share, u);
    hide Claim, Kept, NothingTaken, PieceSafe, Trim, ReservedOnly;
    ClaimStands(c, s, m, u, ys);
    TrimmedPockets(c, s, u, ys);
    TrimmedPockets(c, m, u, ys);
    TrimmedAt(c, s, u, ys, p, u);
    TrimmedAt(c, m, u, ys, p, u);
    SafeSame(c, a, b, u, p, x);
  }

  lemma TransferClaims(c: Config, call: Call, s: State, mid: State, t: State)
    requires c.WellFormed() && InPhase(c, s) && call.Transfer?
    requires Transferred(c, s, mid, t, call.asset, call.from, call.to, call.amount)
    ensures ClaimsKept(c, call, s, t)
  {
    var a, from, to, amount := call.asset, call.from, call.to, call.amount;
    hide Claim, Kept, Next, Transferred, PieceOfClaim, StakeFits, Config.WellFormed;
    forall u, ys: seq<nat> | |ys| == c.N() && Claim(c, s, u, ys) && call.Respects(c, s, u, ys)
      ensures Kept(c, s, t, u, ys, Next(c, call, s, t, u, ys))
    {
      ClaimSize(c, s, u, ys);
      if u == from && from != to && to == c.collection && a == c.collected {
        OwnStakesClaim(c, call, s, mid, t, u, ys);
      } else if u == from && from != to && c.IsIou(a) {
        OwnIousClaim(c, call, s, mid, t, u, ys);
      } else {
        PlainClaim(c, call, s, mid, t, u, ys);
      }
    }
  }

  /** A transfer that is not the account's own, or moves none of the module's assets. */
  lemma PlainClaim(c: Config, call: Call, s: State, mid: State, t: State, u: AccountId, ys: seq<nat>)
    requires c.WellFormed() && InPhase(c, s) && call.Transfer? && Claim(c, s, u, ys)
    requires Transferred(c, s, mid, t, call.asset, call.from, call.to, call.amount)
    requires u != call.from || call.from == call.to
        || (call.asset != c.collected && call.asset != c.share && !c.IsIou(call.asset))
    ensures Kept(c, s, t, u, ys, Next(c, call, s, t, u, ys))
  {
    var a, from, to, amount := call.asset, call.from, call.to, call.amount;
    ClaimSize(c, s, u, ys);
    hide Claim, Kept, StakeDone, StakeRefused, RedeemedFor, RedeemAccepted, Fitting, Next;
    if s.paused || from == to {
      MovedLeaves(c, s, t, a, from, to, amount, u);
      Stands(c, call, s, t, u, ys);
    } else if a == c.share {
      SharesLeave(c, s, t, from, to, amount, u);
      Stands(c, call, s, t, u, ys);
    } else if a == c.collected && to == c.collection {
      MovedLeaves(c, s, mid, a, from, to, amount, u);
      HookLeaves(c, call, s, mid, t, u, ys);
    } else if c.IsIou(a) && to == c.collection {
      OthersLoseNothing(c, s, t, from, c.PhaseOf(a), amount, false, u);
      Stands(c, call, s, t, u, ys);
    } else {
      MovedLeaves(c, s, t, a, from, to, amount, u);
      Stands(c, call, s, t, u, ys);
    }
  }

  lemma MovedLeaves(c: Config, s: State, t: State, a: AssetId, from: AccountId, to: AccountId, amount: nat,
                    u: AccountId)
    requires AssetMoved(s, t, a, from, to, amount)
    requires u != from || from == to || (a != c.collected && a != c.share && !c.IsIou(a))
    ensures NothingTaken(c, s, t, u)
    ensures u == from ==> forall b :: c.IsIou(b) ==> Bal(t.free, b, u) == Bal(s.free, b, u)
  {
    assert t.List(u) == s.List(u);
  }

  lemma SharesLeave(c: Config, s: State, t: State, from: AccountId, to: AccountId, amount: nat, u: AccountId)
    requires c.AssetsDistinct() && SharesMoved(c, s, t, from, to, amount) && u != from
    ensures NothingTaken(c, s, t, u)
  {
    assert t.List(u) == s.List(u);
  }

  lemma HookLeaves(c: Config, call: Call, s: State, mid: State, t: State, u: AccountId, ys: seq<nat>)
    requires c.WellFormed() && InPhase(c, mid) && call.Transfer? && u != call.from && Claim(c, s, u, ys)
    requires NothingTaken(c, s, mid, u)
    requires if StakeRefused(c, mid, call.amount) then t == mid
             else 0 < Fitting(c, mid, call.amount) && StakeDone(c, mid, t, call.from, Fitting(c, mid, call.amount))
    ensures Kept(c, s, t, u, ys, Next(c, call, s, t, u, ys))
  {
    ClaimSize(c, s, u, ys);
    NextOther(c, call, s, t, u, ys);
    hide Claim, StakeRefused, StakeDone, Fitting, NothingTaken, Next, Grown;
    ClaimStands(c, s, mid, u, ys);
    if !StakeRefused(c, mid, call.amount) {
      HookStakeKeepsClaim(c, mid, t, call.from, Fitting(c, mid, call.amount), u, ys);
    }
  }

  lemma OwnStakesClaim(c: Config, call: Call, s: State, mid: State, t: State, u: AccountId, ys: seq<nat>)
    requires c.WellFormed() && InPhase(c, s) && call.Transfer? && Claim(c, s, u, ys) && StakeFits(c, s, call.amount)
    requires call.asset == c.collected && call.from == u && call.to == c.collection
    requires Transferred(c, s, mid, t, call.asset, call.from, call.to, call.amount)
    ensures Kept(c, s, t, u, ys, Next(c, call, s, t, u, ys))
  {
    var amount := call.amount;
    ClaimSize(c, s, u, ys);
    if s.paused {
      assert amount == 0 && AssetMoved(s, t, c.collected, u, c.collection, 0);
      NoneMoved(c, s, t, u, amount);
      hide Claim, Kept, Transferred;
      Stands(c, call, s, t, u, ys);
    } else {
      assert AssetMoved(s, mid, c.collected, u, c.collection, amount) && InPhase(c, mid);
      assert if StakeRefused(c, mid, amount) then t == mid else StakeDone(c, mid, t, u, Fitting(c, mid, amount));
      hide Transferred, Claim, Kept, StakeDone, StakeRefused, Fitting, StakeFits, AssetMoved;
      OwnHookClaim(c, call, s, mid, t, u, ys);
    }
  }

  lemma NoneMoved(c: Config, s: State, t: State, u: AccountId, amount: nat)
    requires c.AssetsDistinct() && amount == 0 && AssetMoved(s, t, c.collected, u, c.collection, amount)
    ensures NothingTaken(c, s, t, u) && forall b :: c.IsIou(b) ==> Bal(t.free, b, u) == Bal(s.free, b, u)
  {
    assert t.List(u) == s.List(u);
  }

  lemma OwnHookClaim(c: Config, call: Call, s: State, mid: State, t: State, u: AccountId, ys: seq<nat>)
    requires c.WellFormed() && InPhase(c, s) && InPhase(c, mid) && call.Transfer? && call.from == u
    requires Claim(c, s, u, ys)
    requires !s.paused && StakeFits(c, s, call.amount) && AssetMoved(s, mid, c.collected, u, c.collection, call.amount)
    requires if StakeRefused(c, mid, call.amount) then t == mid
        else StakeDone(c, mid, t, u, Fitting(c, mid, call.amount))
    ensures Kept(c, s, t, u, ys, Next(c, call, s, t, u, ys))
  {
    var amount := call.amount;
    ClaimSize(c, s, u, ys);
    RefusedOrFits(c, s, mid, u, amount);
    assert Min(amount, c.Capacity() - Cum(c, s)) == amount by { FitsAll(c, s, amount); }
    ClaimMoves(c, s, mid, u, amount, ys);
    forall a | c.IsIou(a) ensures Bal(mid.free, a, u) == Bal(s.free, a, u) { }
    if StakeRefused(c, mid, amount) {
      hide Claim, StakeDone, StakeRefused, Fitting, AssetMoved, StakeFits;
      NextSame(c, call, s, t, u, ys);
    } else {
      assert InPhase(c, t) && IousSold(c, mid, t, u, Cum(c, mid), Cum(c, t));
      hide Claim, StakeDone, StakeRefused, Fitting, AssetMoved, StakeFits;
      HookStakeKeepsClaim(c, mid, t, u, amount, u, ys);
      NextGrown(c, call, mid, t, u, Cum(c, mid), Cum(c, t), ys);
      NextFrom(c, call, s, mid, t, u, ys);
    }
  }

  lemma FitsAll(c: Config, s: State, amount: nat)
    requires c.WellFormed() && InPhase(c, s) && StakeFits(c, s, amount)
    ensures Min(amount, c.Capacity() - Cum(c, s)) == amount
  {
    TakesWhatFits(c, s);
  }

  lemma NextFrom(c: Config, call: Call, s: State, mid: State, t: State, u: AccountId, ys: seq<nat>)
    requires c.IousDistinct() && |ys| == c.N() && forall a :: c.IsIou(a) ==> Bal(mid.free, a, u) == Bal(s.free, a, u)
    ensures Next(c, call, s, t, u, ys) == Next(c, call, mid, t, u, ys)
  {
    forall i | 0 <= i < c.N() ensures Held(c, mid, u)[i] == Held(c, s, u)[i] {
      c.IouFound(i + 1);
      assert c.At(i + 1) == c.phases[i];
    }
  }

  /** The transfer alone: the claim stands, for `amount` less of the collected asset. */
  lemma ClaimMoves(c: Config, s: State, mid: State, u: AccountId, amount: nat, ys: seq<nat>)
    requires c.AssetsDistinct() && Claim(c, s, u, ys) && AssetMoved(s, mid, c.collected, u, c.collection, amount)
    ensures Claim(c, mid, u, ys) && ClaimWorth(c, mid, u, ys) == ClaimWorth(c, s, u, ys) - amount
  {
    TrimFacts(c, s, u, ys);
    TrimFacts(c, mid, u, ys);
    forall p | 1 <= p <= c.N() ensures ys[p - 1] <= Bal(mid.free, c.At(p).iou, u) { c.IouFound(p); }
    assert mid.List(u) == s.List(u);
    hide Pristine;
    PristineSame(c, Trim(c, s, u, ys), Trim(c, mid, u, ys), u);
  }

  lemma OwnIousClaim(c: Config, call: Call, s: State, mid: State, t: State, u: AccountId, ys: seq<nat>)
    requires c.WellFormed() && InPhase(c, s) && call.Transfer? && Claim(c, s, u, ys) && call.Respects(c, s, u, ys)
    requires c.IsIou(call.asset) && call.from == u && call.to != u
    requires Transferred(c, s, mid, t, call.asset, call.from, call.to, call.amount)
    ensures Kept(c, s, t, u, ys, Next(c, call, s, t, u, ys))
  {
    var p, amount := c.PhaseOf(call.asset), call.amount;
    ClaimSize(c, s, u, ys);
    assert call.to == c.collection && !s.paused && PieceOfClaim(c, s, u, ys, p, amount);
    assert RedeemAccepted(c, s, u, call.asset, amount) && RedeemedFor(c, s, t, u, p, amount, false);
    assert CheckCanRedeem(c, s.left, Bal(s.free, c.share, u), s.List(u), p, amount).Done? && amount <= ys[p - 1];
    OwnIous(c, s, t, u, p, amount, RedeemTake(c, s, u, p, amount).0, false);
    hide RedeemedFor, Claim, Kept, PieceOfClaim, CheckCanRedeem, RedeemTake, RedeemAccepted, Transferred;
    PieceKeepsClaim(c, s, t, u, ys, p, amount, false);
    NextPiece(c, call, s, t, u, p, amount, ys);
  }

  lemma PauseClaims(c: Config, call: Call, s: State, t: State)
    requires c.AssetsDistinct() && SamePosition(s, t) && SameHoldings(s, t)
    ensures ClaimsKept(c, call, s, t)
  {
    hide Claim, Kept, Call.Respects, Next, Call.SpendsFrom;
    forall u, ys: seq<nat> | |ys| == c.N() && Claim(c, s, u, ys)
      ensures Kept(c, s, t, u, ys, Next(c, call, s, t, u, ys))
    {
      assert s.List(u) == t.List(u);
      Stands(c, call, s, t, u, ys);
    }
  }

  // ---------------------------------------------------------------- steps

  lemma OutsideStep(c: Config, call: Call, s: State, t: State)
    requires c.WellFormed() && Inv(c, s) && OutsideOnly(c, s, t)
    ensures Step(c, call, s, t)
  {
    assert c.AssetsDistinct() && t.everPaused == s.everPaused;
    hide OutsideOnly, Unharmed, Inv, ClaimsKept;
    OutsideKeepsInv(c, s, t);
    OutsideClaims(c, call, s, t);
    forall u ensures Unharmed(c, s, t, u) { OutsideUnharmed(c, s, t, u); }
  }

  lemma NoStep(c: Config, call: Call, s: State)
    requires c.WellFormed() && Inv(c, s)
    ensures Step(c, call, s, s)
  {
    assert OutsideOnly(c, s, s);
    OutsideStep(c, call, s, s);
  }

  lemma StakeStep(c: Config, call: Call, s: State, t: State, who: AccountId, x: nat)
    requires c.WellFormed() && Inv(c, t) && StakePaid(c, s, t, who, x) && call.Stake? && call.who == who
    ensures Step(c, call, s, t)
  {
    assert PauseKept(s, t);
    hide StakePaid, Unharmed, Inv, ClaimsKept;
    StakeClaims(c, call, s, t, who, x);
    forall u ensures Unharmed(c, s, t, u) { StakeUnharmed(c, s, t, who, x, u); }
  }

  lemma RedeemStep(c: Config, call: Call, s: State, m: State, t: State, who: AccountId, iou: AssetId, amount: nat)
    requires c.WellFormed() && Inv(c, s) && Inv(c, t) && ReservedOnly(c, s, m)
    requires InPhase(c, s) && RedeemAccepted(c, s, who, iou, amount) && m.left >= 1
    requires RedeemedFor(c, m, t, who, c.PhaseOf(iou), amount, true)
    requires (call.Redeem? || call.SudoRedeem?) && call.who == who && call.iou == iou && call.amount == amount
    ensures Step(c, call, s, t)
  {
    assert c.AssetsDistinct() && SameIndex(m, t) && SameIndex(s, m) && c.IsIou(iou);
    hide ClaimsKept;
    RedeemClaims(c, call, s, m, t, who, iou, amount);
    hide ReservedOnly, RedeemedFor, RedeemAccepted, Unharmed, Inv, PieceSafe, Call.Spares;
    forall u | call.Spares(c, s, u) ensures Unharmed(c, s, t, u) {
      if u != who {
        OthersUnharmed(c, s, m, t, who, c.PhaseOf(iou), amount, u);
      } else if Pristine(c, s, u) {
        OwnPiece(c, call, s, iou, amount);
        OwnRedeems(c, s, m, t, u, iou, amount);
      } else {
        NotPristine(c, s, t, u);
      }
    }
  }

  lemma OwnPiece(c: Config, call: Call, s: State, iou: AssetId, amount: nat)
    requires (call.Redeem? || call.SudoRedeem?) && call.iou == iou && call.amount == amount && c.IsIou(iou)
    requires s.left >= 1
    requires call.Spares(c, s, call.who)
    ensures PieceSafe(c, s, call.who, c.PhaseOf(iou), amount)
  {
    hide PieceSafe;
  }

  lemma OthersUnharmed(c: Config, s: State, m: State, t: State, who: AccountId, p: nat, amount: nat, u: AccountId)
    requires c.AssetsDistinct() && ReservedOnly(c, s, m) && 1 <= p <= c.N() && m.left >= 1 && u != who
    requires RedeemedFor(c, m, t, who, p, amount, true)
    ensures Unharmed(c, s, t, u)
  {
    hide RedeemedFor, Unharmed;
    ReservedIsOutside(c, s, m);
    hide ReservedOnly, OutsideOnly;
    OutsideUnharmed(c, s, m, u);
    RedeemUnharmed(c, m, t, who, p, amount, true, u);
    UnharmedTwice(c, s, m, t, u);
  }

  lemma NotPristine(c: Config, s: State, t: State, u: AccountId)
    requires !Pristine(c, s, u)
    ensures Unharmed(c, s, t, u)
  {
  }

  lemma TransferStep(c: Config, call: Call, s: State, mid: State, t: State)
    requires c.WellFormed() && Inv(c, s) && Inv(c, t) && call.Transfer?
    requires Transferred(c, s, mid, t, call.asset, call.from, call.to, call.amount)
    ensures Step(c, call, s, t)
  {
    TransferPauses(c, s, mid, t, call.asset, call.from, call.to, call.amount);
    assert c.WellFormed() && InPhase(c, s);
    hide Transferred, Unharmed, Inv, PieceSafe, StakeFits, ClaimsKept;
    TransferClaims(c, call, s, mid, t);
    forall u | call.Spares(c, s, u) ensures Unharmed(c, s, t, u) {
      if LeavesAlone(c, call.asset, call.from, call.to, u) {
        TransferUnharmed(c, s, mid, t, call.asset, call.from, call.to, call.amount, u);
      } else if !Pristine(c, s, u) {
        NotPristine(c, s, t, u);
      } else if call.asset == c.collected && StakeFits(c, s, call.amount) {
        OwnTransferLosesNothing(c, s, mid, t, u, call.amount);
      } else {
        OwnTransferRedeems(c, s, mid, t, u, call.asset, call.amount);
      }
    }
  }

  lemma TransferPauses(c: Config, s: State, mid: State, t: State, a: AssetId, from: AccountId, to: AccountId,
                       amount: nat)
    requires Core(c, s) && Transferred(c, s, mid, t, a, from, to, amount)
    ensures t.everPaused == s.everPaused
  {
    assert !s.everPaused ==> Tracked(c, s);
    hide Core, Tracked, RedeemedFor, StakeRefused, Fitting;
    if !s.paused && from != to && a != c.share && c.IsIou(a) && to == c.collection && !(a == c.collected) {
      RedeemPauses(c, s, t, from, c.PhaseOf(a), amount);
    } else if !s.paused && from != to && a == c.collected && to == c.collection && a != c.share {
      StakePauses(c, mid, t, from, amount);
    }
  }

  lemma RedeemPauses(c: Config, s: State, t: State, who: AccountId, p: nat, amount: nat)
    requires 1 <= p <= c.N() && s.left >= 1 && RedeemedFor(c, s, t, who, p, amount, false)
    ensures t.everPaused == s.everPaused
  {
  }

  lemma StakePauses(c: Config, m: State, t: State, who: AccountId, amount: nat)
    requires InPhase(c, m)
    requires StakeRefused(c, m, amount) ==> t == m
    requires !StakeRefused(c, m, amount) ==> Fitting(c, m, amount) > 0 && StakeDone(c, m, t, who, Fitting(c, m, amount))
    ensures t.everPaused == m.everPaused
  {
    if !StakeRefused(c, m, amount) { assert PauseKept(m, t); }
  }

  /** Turning the switch changes no law: a paused module only promises less. */
  lemma PauseStep(c: Config, s: State, t: State, on: bool)
    requires c.WellFormed() && Inv(c, s) && SamePosition(s, t) && SameHoldings(s, t)
    requires t.paused == on && t.everPaused == (s.everPaused || on)
    ensures Step(c, SetPaused(on), s, t)
  {
    assert c.AssetsDistinct();
    hide ClaimsKept;
    PauseClaims(c, SetPaused(on), s, t);
    PauseKeepsInv(c, s, t);
    hide Inv, Unharmed;
    forall u ensures Unharmed(c, s, t, u) { BystanderUnharmed(c, s, t, u); }
  }

  lemma PauseKeepsInv(c: Config, s: State, t: State)
    requires c.AssetsDistinct() && Inv(c, s) && SamePosition(s, t) && SameHoldings(s, t)
    requires (s.everPaused ==> t.everPaused) && (t.paused ==> t.everPaused)
    ensures Inv(c, t)
  {
    InvParts(c, s);
    PauseKeepsIndex(c, s, t);
    hide Inv, Core, Backed, Covered, Indexed, Capped;
    assert InPhase(c, t) && PacksVest(c, t);
    BooksSame(c, s, t);
    InvParts(c, t);
  }

  lemma PauseKeepsIndex(c: Config, s: State, t: State)
    requires InPhase(c, s) && Capped(c, s) && Indexed(c, s) && SamePosition(s, t) && SameHoldings(s, t)
    requires s.everPaused ==> t.everPaused
    ensures InPhase(c, t) && Capped(c, t) && Indexed(c, t)
  {
    LockedSame(s, t);
  }

  ghost predicate SameHoldings(s: State, t: State)
  {
    && t.free == s.free && t.issuance == s.issuance && t.unreleased == s.unreleased
    && t.accountShares == s.accountShares && t.circulation == s.circulation
  }

  // ---------------------------------------------------------------- what each call does

  /** What each call does, and how it ends; a panic is yet to be rolled back. */
  ghost predicate Ends(c: Config, call: Call, s: State, t: State, r: Outcome)
  {
    match call
    case Stake(who, asset, amount, price) => StakeEnds(c, s, t, who, asset, amount, price, r)
    case Redeem(who, iou, amount, price) => RedeemEnds(c, s, t, who, iou, amount, price, r)
    case SudoRedeem(who, iou, amount) => SudoRedeemEnds(c, s, t, who, iou, amount, r)
    case Transfer(a, from, to, amount) =>
      if to == c.collection && c.IsIou(a) && !s.paused then InPhase(c, s) && HandInEnds(c, s, t, from, a, amount, r)
      else InPhase(c, s) && TransferEnds(c, s, t, a, from, to, amount, r)
    case SetPaused(on) =>
      && r.Done? && SamePosition(s, t) && SameHoldings(s, t)
      && t.paused == on && t.everPaused == (s.everPaused || on)
    case ForceBonus => if s.paused then r.Failed? && t == s else BonusEnds(c, s, t, r)
    case Block(_) => (r.Done? && t == s) || r.Aborted? || BonusEnds(c, s, t, r)
  }

  /** An accepted stake is sold as much as the schedule has left, pays for it, and has its reserve minted. */
  ghost predicate StakeEnds(c: Config, s: State, t: State, who: AccountId, asset: AssetId, amount: nat, price: nat,
                            r: Outcome)
  {
    && InPhase(c, s) && (r.Aborted? <==> StakingPanics(c, s, who, asset, amount, price))
    && (!r.Aborted? ==>
          if !StakingAccepted(c, s, who, asset, amount) then r.Failed? && t == s
          else
            && 0 < Fitting(c, s, amount) && StakePaid(c, s, t, who, Fitting(c, s, amount))
            && ReserveMinted(c, s, t, price, Fitting(c, s, amount), r) && SoldTo(c, s, t, who, Fitting(c, s, amount)))
  }

  ghost predicate RedeemEnds(c: Config, s: State, t: State, who: AccountId, iou: AssetId, amount: nat, price: nat,
                             r: Outcome)
  {
    && InPhase(c, s) && c.IousDistinct()
    && (r.Done? <==>
          RedeemChecked(c, s, who, iou, amount, price) && amount <= Bal(s.free, iou, who)
          && !LeavesUneven(c, s, who, c.PhaseOf(iou), amount))
    && (r.Done? ==> exists m ::
          ReserveTaken(c, s, m, price, amount) && RedeemedFor(c, m, t, who, c.PhaseOf(iou), amount, true))
    && (r.Failed? ==>
          if RedeemChecked(c, s, who, iou, amount, price) then ReserveTaken(c, s, t, price, amount) else t == s)
  }

  ghost predicate SudoRedeemEnds(c: Config, s: State, t: State, who: AccountId, iou: AssetId, amount: nat, r: Outcome)
  {
    && InPhase(c, s)
    && (r.Done? <==> RedeemAccepted(c, s, who, iou, amount) && !LeavesUneven(c, s, who, c.PhaseOf(iou), amount))
    && (r.Done? ==> RedeemedFor(c, s, t, who, c.PhaseOf(iou), amount, true)) && (r.Failed? ==> t == s)
  }

  /** IOUs sent to the collection account of a running module are redeemed, exactly if the check passes and
      what stays locked splits. */
  ghost predicate HandInEnds(c: Config, s: State, t: State, from: AccountId, iou: AssetId, amount: nat, r: Outcome)
    requires InPhase(c, s) && c.IsIou(iou)
  {
    && (r.Done? <==> RedeemAccepted(c, s, from, iou, amount) && !LeavesUneven(c, s, from, c.PhaseOf(iou), amount))
    && (r.Done? ==> RedeemedFor(c, s, t, from, c.PhaseOf(iou), amount, false)) && (r.Failed? ==> t == s)
  }

  ghost predicate TransferEnds(c: Config, s: State, t: State, a: AssetId, from: AccountId, to: AccountId, amount: nat,
                               r: Outcome)
    requires InPhase(c, s)
  {
    && (r.Aborted? <==> amount <= Bal(s.free, a, from) && TransferPanics(c, s, a, from, to, amount))
    && (amount > Bal(s.free, a, from) ==> r.Failed?)
    && (r.Failed? ==> t == s) && (r.Done? ==> exists mid :: Transferred(c, s, mid, t, a, from, to, amount))
  }

  /** The profit is given out. */
  ghost predicate BonusEnds(c: Config, s: State, t: State, r: Outcome)
  {
    && !r.Failed? && (r.Aborted? <==> ProfitOverflows(c, s))
    && (r.Done? ==> OutsideOnly(c, s, t) && (FairShares(s) ==> ProfitShared(c, s, t)))
  }

  /** What the start of a block does, with the time of the last bonus: one for a full day that has passed since. */
  ghost predicate BlockEnds(c: Config, s: State, t: State, now: nat, since: nat, until: nat, r: Outcome)
  {
    if !s.paused && since != 0 && since + 86_400_000 <= now
    then BonusEnds(c, s, t, r) && (r.Done? ==> until == since + 86_400_000)
    else
      && (if !s.paused && now < since then r.Aborted? else r.Done? && t == s)
      && (r.Done? ==> until == if !s.paused && since == 0 then now / 86_400_000 * 86_400_000 else since)
  }

  /** All that is known of a call: laws and claims are kept, it did what it was to do, and a panic nothing. */
  ghost predicate Did(c: Config, call: Call, s: State, t: State, since: nat, until: nat, r: Outcome)
  {
    && Step(c, call, s, t) && Ends(c, call, s, t, r) && (r.Aborted? ==> t == s && until == since)
    && if call.Block? then BlockEnds(c, s, t, call.now, since, until, r) else until == since
  }

  lemma DidStep(c: Config, call: Call, s: State, t: State, since: nat, until: nat, r: Outcome)
    requires Did(c, call, s, t, since, until, r)
    ensures Step(c, call, s, t)
  {
  }

  lemma DidIs(c: Config, call: Call, s: State, t: State, since: nat, until: nat, r: Outcome)
    requires Step(c, call, s, t) && Ends(c, call, s, t, r) && (r.Aborted? ==> t == s && until == since)
    requires if call.Block? then BlockEnds(c, s, t, call.now, since, until, r) else until == since
    ensures Did(c, call, s, t, since, until, r)
  {
    hide Step, Ends, BlockEnds;
  }

  lemma BlockIsEnd(c: Config, call: Call, s: State, t: State, since: nat, until: nat, r: Outcome)
    requires call.Block? && BlockEnds(c, s, t, call.now, since, until, r)
    ensures Ends(c, call, s, t, r)
  {
    hide BonusEnds;
  }

  lemma RedeemIs(c: Config, s: State, m: State, t: State, who: AccountId, iou: AssetId, amount: nat, price: nat,
                 r: Outcome)
    requires c.AssetsDistinct() && InPhase(c, s)
    requires r.Done? <==>
               RedeemAccepted(c, s, who, iou, amount) && !LeavesUneven(c, s, who, c.PhaseOf(iou), amount)
               && ReserveFits(price, amount) && ReserveHeld(c, s, price, amount)
    requires r.Done? ==>
               ReserveTaken(c, s, m, price, amount) && RedeemedFor(c, m, t, who, c.PhaseOf(iou), amount, true)
    requires r.Failed? ==>
               t == m && if RedeemChecked(c, s, who, iou, amount, price) then ReserveTaken(c, s, m, price, amount)
                         else m == s
    ensures RedeemEnds(c, s, t, who, iou, amount, price, r)
  {
    hide LeavesUneven, CheckCanRedeem, ReserveFits, ReserveHeld, ReserveTaken, RedeemedFor;
  }

  lemma TransferIs(c: Config, s: State, mid: State, t: State, a: AssetId, from: AccountId, to: AccountId, amount: nat,
                   r: Outcome)
    requires c.WellFormed() && InPhase(c, s) && from != c.collection && (r.Failed? ==> t == s)
    requires to == c.collection && c.IsIou(a) && !s.paused ==>
      (r.Done? <==> RedeemAccepted(c, s, from, a, amount) && !LeavesUneven(c, s, from, c.PhaseOf(a), amount))
    requires to != c.collection || !c.IsIou(a) || s.paused ==>
      (amount > Bal(s.free, a, from) ==> r.Failed?)
      && (r.Aborted? <==> amount <= Bal(s.free, a, from) && TransferPanics(c, s, a, from, to, amount))
    requires r.Done? ==> Transferred(c, s, mid, t, a, from, to, amount)
    ensures Ends(c, Transfer(a, from, to, amount), s, t, r)
  {
    if to == c.collection && c.IsIou(a) && !s.paused {
      HandInDone(c, s, mid, t, a, from, amount, r);
      hide HandInEnds;
    } else {
      hide Transferred, TransferPanics;
    }
  }

  lemma HandInDone(c: Config, s: State, mid: State, t: State, a: AssetId, from: AccountId, amount: nat, r: Outcome)
    requires c.WellFormed() && InPhase(c, s) && from != c.collection && c.IsIou(a) && !s.paused
    requires r.Failed? ==> t == s
    requires r.Done? <==> RedeemAccepted(c, s, from, a, amount) && !LeavesUneven(c, s, from, c.PhaseOf(a), amount)
    requires r.Done? ==> Transferred(c, s, mid, t, a, from, c.collection, amount)
    ensures HandInEnds(c, s, t, from, a, amount, r)
  {
    assert c.AssetsDistinct();
    hide RedeemAccepted, LeavesUneven, RedeemedFor, AssetMoved, SharesMoved, StakeDone;
  }

  lemma HandInOf(c: Config, s: State, t: State, u: AccountId, iou: AssetId, x: nat, r: Outcome)
    requires InPhase(c, s) && c.IsIou(iou) && !s.paused && Ends(c, Transfer(iou, u, c.collection, x), s, t, r)
    ensures HandInEnds(c, s, t, u, iou, x, r)
  {
    hide HandInEnds, TransferEnds;
  }

  /** A panic leaves nothing behind, wherever the call had got to. */
  lemma PanicEnds(c: Config, call: Call, s: State, m: State, t: State)
    requires Ends(c, call, s, m, Aborted)
    ensures Ends(c, call, s, t, Aborted)
  {
    hide RedeemAccepted, LeavesUneven, RedeemedFor, TransferPanics, StakingPanics, ProfitOverflows, RedeemChecked;
  }

  lemma BlockPanics(c: Config, s: State, m: State, now: nat, since: nat, until: nat)
    requires BlockEnds(c, s, m, now, since, until, Aborted)
    ensures BlockEnds(c, s, s, now, since, since, Aborted)
  {
    hide ProfitOverflows;
  }

  // ---------------------------------------------------------------- runs

  /** Every call of the run costs `u` nothing, in the state it finds. */
  ghost predicate SparedBy(c: Config, calls: seq<Call>, trace: seq<State>, u: AccountId)
    requires |trace| == |calls| + 1
  {
    forall i :: 0 <= i < |calls| ==> calls[i].Spares(c, trace[i], u)
  }

  lemma StepKeepsInv(c: Config, call: Call, s: State, t: State)
    requires Step(c, call, s, t)
    ensures Inv(c, t)
  {
  }

  /** The calls of a run did what they were to do, one after the other. */
  ghost predicate DidAll(c: Config, calls: seq<Call>, trace: seq<State>, times: seq<nat>, ends: seq<Outcome>, k: nat)
    requires k <= |calls| && k < |trace| && k < |times| && k <= |ends|
  {
    forall i :: 0 <= i < k ==>
      Inv(c, trace[i]) && Did(c, calls[i], trace[i], trace[i + 1], times[i], times[i + 1], ends[i])
  }

  lemma DidAllSteps(c: Config, calls: seq<Call>, trace: seq<State>, times: seq<nat>, ends: seq<Outcome>)
    requires |trace| == |calls| + 1 == |times| == |ends| + 1 && DidAll(c, calls, trace, times, ends, |calls|)
    ensures forall i :: 0 <= i < |calls| ==> Inv(c, trace[i]) && Step(c, calls[i], trace[i], trace[i + 1])
  {
    hide Inv, Did, Step;
    forall i | 0 <= i < |calls| ensures Inv(c, trace[i]) && Step(c, calls[i], trace[i], trace[i + 1]) {
      DidStep(c, calls[i], trace[i], trace[i + 1], times[i], times[i + 1], ends[i]);
    }
  }

  lemma DidOneMore(c: Config, calls: seq<Call>, trace: seq<State>, times: seq<nat>, ends: seq<Outcome>, t: State,
                   until: nat, r: Outcome)
    requires |trace| == |times| == |ends| + 1 && |ends| < |calls| && DidAll(c, calls, trace, times, ends, |ends|)
    requires Inv(c, trace[|ends|]) && Did(c, calls[|ends|], trace[|ends|], t, times[|ends|], until, r)
    ensures DidAll(c, calls, trace + [t], times + [until], ends + [r], |ends| + 1)
  {
    hide Inv, Did;
  }

  lemma {:induction false} SparedIsUnharmed(c: Config, calls: seq<Call>, trace: seq<State>, u: AccountId, k: nat)
    requires k <= |calls| && |trace| == |calls| + 1 && SparedBy(c, calls, trace, u)
    requires forall i :: 0 <= i < |calls| ==> Step(c, calls[i], trace[i], trace[i + 1])
    ensures Unharmed(c, trace[0], trace[k], u)
  {
    if k == 0 {
      SelfUnharmed(c, trace[0], u);
    } else {
      SparedIsUnharmed(c, calls, trace, u, k - 1);
      assert Step(c, calls[k - 1], trace[k - 1], trace[k]) && calls[k - 1].Spares(c, trace[k - 1], u);
      hide Inv, Unharmed, Call.Spares;
      UnharmedTwice(c, trace[0], trace[k - 1], trace[k], u);
    }
  }

  lemma {:induction false} NeverPauses(c: Config, calls: seq<Call>, trace: seq<State>, k: nat)
    requires k <= |calls| && |trace| == |calls| + 1 && !trace[0].everPaused
    requires forall i :: 0 <= i < |calls| ==> !calls[i].SetPaused? && Step(c, calls[i], trace[i], trace[i + 1])
    ensures !trace[k].everPaused
  {
    if k > 0 { NeverPauses(c, calls, trace, k - 1); }
  }

  /** Nothing was staked yet. */
  ghost predicate Genesis(c: Config, s: State)
  {
    && Inv(c, s) && Cum(c, s) == 0 && !s.paused && !s.everPaused
    && forall u :: u != c.collection ==>
         Pristine(c, s, u) && Wealth(c, s, u) == Bal(s.free, c.collected, u) && Surplus(c, s, u) == 0
  }

  /** What the account had of the collected asset is back, and no shares, IOUs or packs are left behind. */
  ghost predicate GotOut(c: Config, s: State, e: State, u: AccountId)
  {
    && Bal(e.free, c.collected, u) == Bal(s.free, c.collected, u)
    && Bal(e.free, c.share, u) == 0 && ListTotal(e.List(u)) == 0
    && forall p :: 1 <= p <= c.N() ==> Bal(e.free, c.At(p).iou, u) == 0
  }

  lemma Opened(c: Config, t: State, o: State, r: Outcome)
    requires Ends(c, SetPaused(false), t, o, r)
    ensures !o.paused
  {
  }

  lemma GenesisIsLawful(c: Config, s: State)
    requires Genesis(c, s)
    ensures Inv(c, s)
  {
  }

  lemma OpensUnharmed(c: Config, t: State, o: State, u: AccountId)
    requires Step(c, SetPaused(false), t, o)
    ensures Unharmed(c, t, o, u)
  {
    assert SetPaused(false).Spares(c, t, u);
  }

  lemma OutInTheEnd(c: Config, s: State, t: State, o: State, e: State, u: AccountId)
    requires Genesis(c, s) && u != c.collection && Unharmed(c, s, t, u) && Unharmed(c, t, o, u)
    requires Pristine(c, o, u) ==> Out(c, o, e, u)
    ensures Pristine(c, o, u) && GotOut(c, s, e, u)
  {
    hide Pristine, Wealth, Surplus, Inv;
  }

  // ---------------------------------------------------------------- claims over a run

  /** The claim after the first `k` calls. */
  ghost function ClaimAlong(c: Config, calls: seq<Call>, trace: seq<State>, u: AccountId, ys: seq<nat>,
      k: nat): (r: seq<nat>)
    requires k <= |calls| && |trace| == |calls| + 1 && |ys| == c.N()
    ensures |r| == c.N()
  {
    if k == 0 then ys else Next(c, calls[k - 1], trace[k - 1], trace[k], u, ClaimAlong(c, calls, trace, u, ys, k - 1))
  }

  /** Every call of the run respects the claim as it stands then. */
  ghost predicate RespectedBy(c: Config, calls: seq<Call>, trace: seq<State>, u: AccountId, ys: seq<nat>)
    requires |trace| == |calls| + 1 && |ys| == c.N()
  {
    forall i :: 0 <= i < |calls| ==> calls[i].Respects(c, trace[i], u, ClaimAlong(c, calls, trace, u, ys, i))
  }

  lemma {:induction false} RespectedIsKept(c: Config, calls: seq<Call>, trace: seq<State>, u: AccountId, ys: seq<nat>,
                                           k: nat)
    requires k <= |calls| && |trace| == |calls| + 1 && |ys| == c.N() && RespectedBy(c, calls, trace, u, ys)
    requires Claim(c, trace[0], u, ys)
    requires forall i :: 0 <= i < |calls| ==> Step(c, calls[i], trace[i], trace[i + 1])
    ensures Kept(c, trace[0], trace[k], u, ys, ClaimAlong(c, calls, trace, u, ys, k))
  {
    hide Step, Call.Respects, Claim, Kept, Next;
    if k == 0 {
      NothingTakenBack(c, trace[0], u, ys);
    } else {
      RespectedIsKept(c, calls, trace, u, ys, k - 1);
      var ys' := ClaimAlong(c, calls, trace, u, ys, k - 1);
      KeptIsClaim(c, trace[0], trace[k - 1], u, ys, ys');
      assert calls[k - 1].Respects(c, trace[k - 1], u, ys');
      StepKeepsClaim(c, calls[k - 1], trace[k - 1], trace[k], u, ys');
      KeptTwice(c, trace[0], trace[k - 1], trace[k], u, ys, ys', ClaimAlong(c, calls, trace, u, ys, k));
    }
  }

  lemma StepKeepsClaim(c: Config, call: Call, s: State, t: State, u: AccountId, ys: seq<nat>)
    requires Step(c, call, s, t) && |ys| == c.N() && Claim(c, s, u, ys) && call.Respects(c, s, u, ys)
    ensures Kept(c, s, t, u, ys, Next(c, call, s, t, u, ys))
  {
    hide Inv, Unharmed, Call.Respects, Call.Spares, Claim, Kept, Next;
  }

  lemma KeptIsClaim(c: Config, s: State, t: State, u: AccountId, ys: seq<nat>, ys': seq<nat>)
    requires Kept(c, s, t, u, ys, ys')
    ensures Claim(c, t, u, ys') && |ys'| == c.N()
  {
  }

  lemma AllClaimsKept(c: Config, calls: seq<Call>, trace: seq<State>)
    requires |trace| == |calls| + 1 && forall i :: 0 <= i < |calls| ==> Step(c, calls[i], trace[i], trace[i + 1])
    ensures forall u, ys: seq<nat> ::
      |ys| == c.N() && RespectedBy(c, calls, trace, u, ys) && Claim(c, trace[0], u, ys) ==>
      Kept(c, trace[0], trace[|calls|], u, ys, ClaimAlong(c, calls, trace, u, ys, |calls|))
  {
    hide Step, Claim, Kept, RespectedBy, ClaimAlong;
    forall u, ys: seq<nat> | |ys| == c.N() && RespectedBy(c, calls, trace, u, ys) && Claim(c, trace[0], u, ys)
      ensures Kept(c, trace[0], trace[|calls|], u, ys, ClaimAlong(c, calls, trace, u, ys, |calls|))
    {
      RespectedIsKept(c, calls, trace, u, ys, |calls|);
    }
  }

  /** Whoever all calls spare is unharmed in the end, every claim they all respect is kept, and only root pauses. */
  ghost predicate RunKept(c: Config, calls: seq<Call>, trace: seq<State>)
    requires |trace| == |calls| + 1
  {
    && (forall u :: SparedBy(c, calls, trace, u) ==> Unharmed(c, trace[0], trace[|calls|], u))
    && (forall u, ys: seq<nat> ::
          |ys| == c.N() && RespectedBy(c, calls, trace, u, ys) && Claim(c, trace[0], u, ys) ==>
          Kept(c, trace[0], trace[|calls|], u, ys, ClaimAlong(c, calls, trace, u, ys, |calls|)))
    && (!trace[0].everPaused && (forall i :: 0 <= i < |calls| ==> !calls[i].SetPaused?) ==> !trace[|calls|].everPaused)
  }

  /** What a run of such calls means from its first state to its last. */
  lemma RunMeans(c: Config, calls: seq<Call>, trace: seq<State>, times: seq<nat>, ends: seq<Outcome>)
    requires |trace| == |calls| + 1 == |times| == |ends| + 1 && DidAll(c, calls, trace, times, ends, |calls|)
    ensures RunKept(c, calls, trace)
  {
    hide Inv, Step, Unharmed, SparedBy, RespectedBy, Claim, Kept, ClaimAlong, DidAll;
    DidAllSteps(c, calls, trace, times, ends);
    AllClaimsKept(c, calls, trace);
    forall u | SparedBy(c, calls, trace, u) ensures Unharmed(c, trace[0], trace[|calls|], u) {
      SparedIsUnharmed(c, calls, trace, u, |calls|);
    }
    if !trace[0].everPaused && (forall i :: 0 <= i < |calls| ==> !calls[i].SetPaused?) {
      NeverPauses(c, calls, trace, |calls|);
    }
  }

  // ---------------------------------------------------------------- taking a claim back

  lemma NothingTakenBack(c: Config, s: State, u: AccountId, ys: seq<nat>)
    requires Claim(c, s, u, ys)
    ensures Kept(c, s, s, u, ys, ys)
  {
  }

  /** One phase of it. */
  lemma PieceTakenBack(c: Config, s: State, t: State, u: AccountId, ys: seq<nat>, p: nat, r: Outcome)
    requires c.WellFormed() && Core(c, s) && HeldIsIssued(c, s, u) && !s.paused && Claim(c, s, u, ys) && 1 <= p <= c.N()
    requires |ys| == c.N() && Ends(c, Transfer(c.At(p).iou, u, c.collection, ys[p - 1]), s, t, r)
    ensures r.Done? && !t.paused && Kept(c, s, t, u, ys, ys[p - 1 := 0])
  {
    var x := ys[p - 1];
    c.IouFound(p);
    ClaimRedeems(c, s, u, ys, p);
    HandInOf(c, s, t, u, c.At(p).iou, x, r);
    hide Ends;
    assert CheckCanRedeem(c, s.left, Bal(s.free, c.share, u), s.List(u), p, x).Done?;
    hide Claim, RedeemedFor, LeavesUneven, CheckCanRedeem, PieceOfClaim, Kept, Core;
    PieceKeepsClaim(c, s, t, u, ys, p, x, false);
    StaysRunning(c, s, t, u, p, x);
  }

  lemma StaysRunning(c: Config, s: State, t: State, u: AccountId, p: nat, x: nat)
    requires 1 <= p <= c.N() && s.left >= 1 && RedeemedFor(c, s, t, u, p, x, false)
    ensures t.paused == s.paused
  {
  }

  lemma AllTakenBack(c: Config, s: State, t: State, u: AccountId, ys: seq<nat>, rest: seq<nat>, order: seq<nat>)
    requires |rest| == c.N() && (forall i :: 0 <= i < |order| ==> 1 <= order[i] <= c.N())
    requires (forall i :: 0 <= i < |order| ==> rest[order[i] - 1] == 0) && forall p :: 1 <= p <= c.N() ==> p in order
    requires Kept(c, s, t, u, ys, rest)
    ensures Bal(t.free, c.collected, u) >= ClaimWorth(c, s, u, ys)
  {
    forall i | 0 <= i < c.N() ensures rest[i] == 0 { assert i + 1 in order; }
    hide Claim;
    WeighZero(c, rest, c.N());
  }

  ghost function NoIous(c: Config): seq<nat> { seq(c.N(), i => 0) }

  /** The run respects the claim that starts from nothing, and `amounts` is what became of it. */
  ghost predicate OwnClaim(c: Config, calls: seq<Call>, trace: seq<State>, u: AccountId, amounts: seq<nat>)
    requires |trace| == |calls| + 1
  {
    RespectedBy(c, calls, trace, u, NoIous(c)) && amounts == ClaimAlong(c, calls, trace, u, NoIous(c), |calls|)
  }

  lemma GenesisClaims(c: Config, s: State, u: AccountId)
    requires c.WellFormed() && Genesis(c, s) && u != c.collection
    requires forall p :: 1 <= p <= c.N() ==> Bal(s.free, c.At(p).iou, u) == 0
    ensures Claim(c, s, u, NoIous(c)) && ClaimWorth(c, s, u, NoIous(c)) == Bal(s.free, c.collected, u)
  {
    hide Pristine, Claim, Inv;
    PristineClaims(c, s, u, NoIous(c));
  }

  lemma TakenBackInTheEnd(c: Config, calls: seq<Call>, trace: seq<State>, s: State, t: State, o: State, e: State,
                          u: AccountId, amounts: seq<nat>)
    requires |trace| == |calls| + 1 && |amounts| == c.N() && OwnClaim(c, calls, trace, u, amounts)
    requires Claim(c, s, u, NoIous(c)) && ClaimWorth(c, s, u, NoIous(c)) == Bal(s.free, c.collected, u)
    requires RunKept(c, calls, trace) && s == trace[0] && t == trace[|calls|]
    requires Step(c, SetPaused(false), t, o)
    requires Claim(c, o, u, amounts) ==> Bal(e.free, c.collected, u) >= ClaimWorth(c, o, u, amounts)
    ensures Claim(c, o, u, amounts) && Bal(e.free, c.collected, u) >= Bal(s.free, c.collected, u)
  {
    var open := SetPaused(false);
    assert Kept(c, s, t, u, NoIous(c), amounts);
    KeptIsClaim(c, s, t, u, NoIous(c), amounts);
    assert open.Respects(c, t, u, amounts) && Next(c, open, t, o, u, amounts) == amounts;
    hide Claim, Inv, Unharmed, Call.Respects, RespectedBy, ClaimAlong;
    assert Kept(c, t, o, u, amounts, amounts);
  }
}
