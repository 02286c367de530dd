/** Handing IOUs in piece by piece: which pieces of an account with a way out go through, and
    after which of them the rest still has its way out. */
module Pieces {
  import opened Primitives
  import opened Books
  import opened VestingPacks
  import opened PackLists
  import opened SavingModel
  import opened SavingLaws
  import opened RedeemLaws
  import opened DispatchLaws
  import opened RoundTrip
  import opened TransferLaws

  /** No account holds more IOUs of a phase than were issued. */
  ghost predicate HeldIsIssued(c: Config, s: State, u: AccountId)
  {
    forall q :: 1 <= q <= c.N() ==> Bal(s.free, c.At(q).iou, u) <= s.Issued(c.At(q).iou)
  }

  /** What a pristine account knows about its IOUs of phase `p`. */
  lemma PhaseFacts(c: Config, s: State, u: AccountId, p: nat, x: nat)
    requires c.WellFormed() && Core(c, s) && Pristine(c, s, u) && HeldIsIssued(c, s, u)
    requires 1 <= p <= c.N() && x <= Bal(s.free, c.At(p).iou, u)
    ensures var worth, locked := c.At(p).exchange * Bal(s.free, c.At(p).iou, u), PhaseTotal(s.List(u), c.share, p);
            var required := x * c.At(p).exchange;
            && required <= worth && locked <= worth <= Bal(s.free, c.share, u) + locked
            && locked * (c.N() - p + 1) <= worth * (s.left - 1)
            && (s.left - 1 <= c.N() - p + 1 || worth == 0)
            && required <= MAX_BALANCE && required * (s.left - 1) <= MAX_BALANCE
            && LockedPart(c, p, s.left, required) <= required
  {
    assert ShareAt(c, s, u, p);
    RedeemFits(c, s, p, x);
    SoldOrNone(c, s, u, p);
    LockedBelowWorth(c, s, u, p);
    FreeCoversPhase(c, s, u, p);
    hide *;
    WorthMono(c.At(p).exchange, x, Bal(s.free, c.At(p).iou, u));
  }

  lemma WorthMono(e: nat, x: nat, y: nat)
    requires x <= y
    ensures x * e <= e * y && e * x == x * e && (y == 0 ==> e * y == 0)
  {
    MulMono(x, y, e);
  }

  /** A piece passes the check exactly when the free shares cover what is not to come out of the
      locked ones, or the locked ones of the phase go with it altogether. */
  lemma PieceAccepted(c: Config, s: State, u: AccountId, p: nat, x: nat)
    requires c.WellFormed() && Core(c, s) && Pristine(c, s, u) && HeldIsIssued(c, s, u)
    requires 1 <= p <= c.N() && x <= Bal(s.free, c.At(p).iou, u)
    ensures var free, required := Bal(s.free, c.share, u), x * c.At(p).exchange;
            CheckCanRedeem(c, s.left, free, s.List(u), p, x).Done? <==>
              || required - LockedPart(c, p, s.left, required) <= free
              || required == free + PhaseTotal(s.List(u), c.share, p)
  {
    PhaseFacts(c, s, u, p, x);
    hide LockedPart, PhaseTotal, Core, Pristine;
  }

  /** Pieces that divide evenly always pass. */
  lemma EvenPiecesPass(c: Config, s: State, u: AccountId, p: nat, x: nat)
    requires c.WellFormed() && Core(c, s) && Pristine(c, s, u) && HeldIsIssued(c, s, u)
    requires 1 <= p <= c.N() && x <= Bal(s.free, c.At(p).iou, u)
    requires x * c.At(p).exchange * (s.left - 1) % (c.N() - p + 1) == 0
    ensures CheckCanRedeem(c, s.left, Bal(s.free, c.share, u), s.List(u), p, x).Done?
    ensures PieceSafe(c, s, u, p, x)
  {
    var required := x * c.At(p).exchange;
    PhaseFacts(c, s, u, p, x);
    PieceAccepted(c, s, u, p, x);
    hide PhaseTotal, Core, Pristine, CheckCanRedeem, RedeemTake;
    EvenPart(required, c.At(p).exchange * Bal(s.free, c.At(p).iou, u), Bal(s.free, c.share, u),
             PhaseTotal(s.List(u), c.share, p), s.left - 1, c.N() - p + 1);
  }

  lemma EvenPart(required: nat, worth: nat, free: nat, locked: nat, k: nat, n: nat)
    requires n > 0 && required <= worth <= free + locked && locked * n <= worth * k && (k <= n || worth == 0)
    requires required * k % n == 0
    ensures required - required * k / n <= free
  {
    var part := required * k / n;
    assert part * n == required * k;
    if k <= n {
      MulMono(required, worth, n - k);
      assert required * (n - k) == required * n - required * k && worth * (n - k) == worth * n - worth * k;
      MulMono(worth, free + locked, n);
      assert (free + locked) * n == free * n + locked * n;
      assert (required - part) * n == required * n - part * n;
      MulCancel(required - part, free, n);
    }
  }

  /** The piece leaves the rest of the phase within its schedule: the phase's locked shares go with it
      altogether, or what rounding leaves locked beyond the schedule fits into what the account
      is ahead of it. */
  ghost predicate PieceSafe(c: Config, s: State, u: AccountId, p: nat, x: nat)
    requires 1 <= p <= c.N() && s.left >= 1
  {
    var n, k, locked := c.N() - p + 1, s.left - 1, PhaseTotal(s.List(u), c.share, p);
    || RedeemTake(c, s, u, p, x).1 == locked
    || x * c.At(p).exchange * k % n <= c.At(p).exchange * Bal(s.free, c.At(p).iou, u) * k - locked * n
  }

  /** A whole phase is a safe piece. */
  lemma WholePhaseIsSafe(c: Config, s: State, u: AccountId, p: nat)
    requires c.WellFormed() && Core(c, s) && Pristine(c, s, u) && HeldIsIssued(c, s, u) && 1 <= p <= c.N()
    ensures PieceSafe(c, s, u, p, Bal(s.free, c.At(p).iou, u))
  {
    WholePhaseRedeems(c, s, u, p, Bal(s.free, c.At(p).iou, u));
  }

  /** A redemption of one's own never loses anything, whoever the account is: both pockets give up what the
      piece is worth, and the stake comes back. */
  lemma PieceLosesNothing(c: Config, s: State, t: State, u: AccountId, p: nat, x: nat, burnt: bool)
    requires c.AssetsDistinct() && u != c.collection && 1 <= p <= c.N() && s.left >= 1
    requires x <= Bal(s.free, c.At(p).iou, u)
    requires CheckCanRedeem(c, s.left, Bal(s.free, c.share, u), s.List(u), p, x).Done?
    requires RedeemedFor(c, s, t, u, p, x, burnt)
    ensures Wealth(c, t, u) == Wealth(c, s, u) && Surplus(c, t, u) == Surplus(c, s, u) && t.left == s.left
    ensures Bal(t.free, c.share, u) == Bal(s.free, c.share, u) - RedeemTake(c, s, u, p, x).0
    ensures forall q :: 1 <= q <= c.N() ==>
      Bal(t.free, c.At(q).iou, u) == Bal(s.free, c.At(q).iou, u) - if q == p then x else 0
    ensures forall q :: PhaseTotal(t.List(u), c.share, q) + (if q == p then RedeemTake(c, s, u, p, x).1 else 0)
                        == PhaseTotal(s.List(u), c.share, q)
  {
    var take := RedeemTake(c, s, u, p, x);
    TakenIs(c, s, u, p, x);
    OwnIous(c, s, t, u, p, x, take.0, burnt);
    OwnEntitlement(c, s, t, u, p, x, burnt);
    OwnLists(c, s, t, u, p, x, burnt);
    OwnWorth(c, s, t, u, p, x);
    hide RedeemedFor, Entitled, RedeemTake, CheckCanRedeem, LockedPart, PhaseTotal;
    WorthMono(c.At(p).exchange, x, x);
  }

  lemma OwnLists(c: Config, s: State, t: State, u: AccountId, p: nat, x: nat, burnt: bool)
    requires 1 <= p <= c.N() && s.left >= 1 && RedeemedFor(c, s, t, u, p, x, burnt)
    ensures t.left == s.left && ListsShrink(c, s, t, u, p, RedeemTake(c, s, u, p, x).1)
    ensures forall q :: PhaseTotal(t.List(u), c.share, q) + (if q == p then RedeemTake(c, s, u, p, x).1 else 0)
                        == PhaseTotal(s.List(u), c.share, q)
  {
    hide RedeemTake, PhaseTotal, ListTotal;
  }

  /** It leaves the account pristine exactly when the piece was safe.  A pristine account can hand everything
      in; one that is not may be able to, too. */
  lemma PieceKeepsWay(c: Config, s: State, t: State, u: AccountId, p: nat, x: nat, burnt: bool)
    requires c.WellFormed() && Pristine(c, s, u) && 1 <= p <= c.N() && s.left >= 1 && x <= Bal(s.free, c.At(p).iou, u)
    requires CheckCanRedeem(c, s.left, Bal(s.free, c.share, u), s.List(u), p, x).Done?
    requires RedeemedFor(c, s, t, u, p, x, burnt)
    ensures Wealth(c, t, u) == Wealth(c, s, u) && Surplus(c, t, u) == Surplus(c, s, u)
    ensures Pristine(c, t, u) <==> PieceSafe(c, s, u, p, x)
  {
    NotCollection(c, s, u);
    PieceLosesNothing(c, s, t, u, p, x, burnt);
    OwnLists(c, s, t, u, p, x, burnt);
    TakenIs(c, s, u, p, x);
    assert VestedShare(c, s, u) && Surplus(c, s, u) >= 0;
    assert Pristine(c, t, u) <==> VestedShare(c, t, u);
    hide RedeemedFor, Pristine, Surplus, Wealth, RedeemTake, CheckCanRedeem, LockedPart, VestedShare, PieceSafe;
    hide ListsShrink;
    PieceVests(c, s, t, u, p, x, RedeemTake(c, s, u, p, x).1);
    RestOfPiece(c, s, t, u, p, x);
  }

  /** What comes out of the locked pocket: everything of the phase, or just the locked part. */
  lemma TakenIs(c: Config, s: State, u: AccountId, p: nat, x: nat)
    requires 1 <= p <= c.N() && s.left >= 1
    requires CheckCanRedeem(c, s.left, Bal(s.free, c.share, u), s.List(u), p, x).Done?
    ensures var required, take := x * c.At(p).exchange, RedeemTake(c, s, u, p, x);
            && take.0 + take.1 == required && take.1 <= PhaseTotal(s.List(u), c.share, p)
            && (take.1 == PhaseTotal(s.List(u), c.share, p) || take.1 == LockedPart(c, p, s.left, required))
  {
    var required := x * c.At(p).exchange;
    var locked := LockedPart(c, p, s.left, required);
    hide LockedPart, PhaseTotal;
    CheckMeansCovered(Bal(s.free, c.share, u), PhaseTotal(s.List(u), c.share, p), required, locked);
  }

  lemma OwnEntitlement(c: Config, s: State, t: State, u: AccountId, p: nat, x: nat, burnt: bool)
    requires c.AssetsDistinct() && 1 <= p <= c.N() && s.left >= 1 && u != c.collection
    requires RedeemedFor(c, s, t, u, p, x, burnt)
    ensures Entitled(c, t, u) == Entitled(c, s, u) - RedeemTake(c, s, u, p, x).0 - RedeemTake(c, s, u, p, x).1
    ensures Bal(t.free, c.collected, u) == Bal(s.free, c.collected, u) + x
  {
    hide RedeemTake, PhaseTotal, ListTotal, PacksVest;
    c.IouFound(p);
  }

  lemma PieceVests(c: Config, s: State, t: State, u: AccountId, p: nat, x: nat, taken: nat)
    requires VestedShare(c, s, u) && t.left == s.left >= 1 && 1 <= p <= c.N() && ListsShrink(c, s, t, u, p, taken)
    requires forall q ::
      1 <= q <= c.N() ==> Bal(t.free, c.At(q).iou, u) == Bal(s.free, c.At(q).iou, u) - if q == p then x else 0
    ensures VestedShare(c, t, u) <==> ShareAt(c, t, u, p)
  {
    hide ShareAt, ListsShrink;
    forall q | 1 <= q <= c.N() && q != p ensures ShareAt(c, t, u, q) {
      assert ShareAt(c, s, u, q);
      OtherPhaseVests(c, s, t, u, p, taken, q);
    }
  }

  lemma OtherPhaseVests(c: Config, s: State, t: State, u: AccountId, p: nat, taken: nat, q: nat)
    requires 1 <= q <= c.N() && q != p && t.left == s.left >= 1
    requires ShareAt(c, s, u, q) && ListsShrink(c, s, t, u, p, taken)
    requires Bal(t.free, c.At(q).iou, u) == Bal(s.free, c.At(q).iou, u)
    ensures ShareAt(c, t, u, q)
  {
    hide PhaseTotal, ListTotal;
    assert PhaseTotal(t.List(u), c.share, q) == PhaseTotal(s.List(u), c.share, q);
  }

  lemma RestOfPiece(c: Config, s: State, t: State, u: AccountId, p: nat, x: nat)
    requires t.left == s.left && 1 <= p <= c.N() && s.left >= 1 && x <= Bal(s.free, c.At(p).iou, u)
    requires ListsShrink(c, s, t, u, p, RedeemTake(c, s, u, p, x).1)
    requires Bal(t.free, c.At(p).iou, u) == Bal(s.free, c.At(p).iou, u) - x
    requires var required, taken := x * c.At(p).exchange, RedeemTake(c, s, u, p, x).1;
             taken == PhaseTotal(s.List(u), c.share, p) || taken == LockedPart(c, p, s.left, required)
    ensures ShareAt(c, t, u, p) <==> PieceSafe(c, s, u, p, x)
  {
    var e, held, locked := c.At(p).exchange, Bal(s.free, c.At(p).iou, u), PhaseTotal(s.List(u), c.share, p);
    var taken := RedeemTake(c, s, u, p, x).1;
    assert PhaseTotal(t.List(u), c.share, p) == locked - taken;
    hide PhaseTotal, ListTotal, RedeemTake, ListsShrink;
    RestIsVested(e, held, x, locked, taken, s.left - 1, c.N() - p + 1);
  }

  lemma RestIsVested(e: nat, held: nat, x: nat, locked: nat, taken: nat, k: nat, n: nat)
    requires n > 0 && x <= held && taken <= locked
    requires taken == locked || taken == x * e * k / n
    ensures (locked - taken) * n <= e * (held - x) * k <==>
      taken == locked || x * e * k % n <= e * held * k - locked * n
  {
    assert e * (held - x) == e * held - x * e;
    assert (e * held - x * e) * k == e * held * k - x * e * k;
    assert (locked - taken) * n == locked * n - taken * n;
    if taken == locked {
      assert 0 * n == 0;
      MulMono(0, held - x, e);
      MulMono(0, e * (held - x), k);
    }
  }

  /** The same for a transfer of IOUs to the collection account. */
  lemma OwnTransferRedeems(c: Config, s: State, mid: State, t: State, u: AccountId, iou: AssetId, amount: nat)
    requires c.WellFormed() && !s.paused && s.left >= 1 && c.IsIou(iou) && Pristine(c, s, u)
    requires Transferred(c, s, mid, t, iou, u, c.collection, amount)
    ensures Unharmed(c, s, t, u) <==> PieceSafe(c, s, u, c.PhaseOf(iou), amount)
  {
    NotCollection(c, s, u);
    assert InPhase(c, s) && RedeemAccepted(c, s, u, iou, amount);
    assert RedeemedFor(c, s, t, u, c.PhaseOf(iou), amount, false);
    hide Transferred, Pristine, Wealth, Surplus, RedeemedFor, PieceSafe, CheckCanRedeem;
    PieceKeepsWay(c, s, t, u, c.PhaseOf(iou), amount, false);
  }

  /** ... and for one that burns the IOUs in the end, with the reserve burned first. */
  lemma OwnRedeems(c: Config, s: State, m: State, t: State, u: AccountId, iou: AssetId, amount: nat)
    requires c.WellFormed() && InPhase(c, s) && RedeemAccepted(c, s, u, iou, amount) && Pristine(c, s, u)
    requires ReservedOnly(c, s, m) && RedeemedFor(c, m, t, u, c.PhaseOf(iou), amount, true)
    ensures Unharmed(c, s, t, u) <==> PieceSafe(c, s, u, c.PhaseOf(iou), amount)
  {
    var p := c.PhaseOf(iou);
    ReserveBurned(c, s, m, u, iou, amount);
    ReservedIsOutside(c, s, m);
    OutsideUnharmed(c, s, m, u);
    assert RedeemTake(c, m, u, p, amount) == RedeemTake(c, s, u, p, amount);
    assert PieceSafe(c, m, u, p, amount) <==> PieceSafe(c, s, u, p, amount);
    assert Pristine(c, m, u) && Wealth(c, m, u) == Wealth(c, s, u) && Surplus(c, m, u) == Surplus(c, s, u);
    assert CheckCanRedeem(c, m.left, Bal(m.free, c.share, u), m.List(u), p, amount).Done?;
    hide Pristine, Wealth, Surplus, RedeemedFor, PieceSafe, CheckCanRedeem, RedeemTake, ReservedOnly, OutsideOnly;
    PieceKeepsWay(c, m, t, u, p, amount, true);
  }
}
