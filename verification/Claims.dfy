/** What nobody else can touch: the IOUs an account staked for itself, whatever it is sent on top. */
module Claims {
  import opened Primitives
  import opened Books
  import opened VestingPacks
  import opened PackLists
  import opened SavingModel
  import opened SavingLaws
  import opened RedeemLaws
  import opened DispatchLaws
  import opened RoundTrip
  import opened TransferLaws
  import opened Pieces

  /** The book with `u` holding `ys` of the IOUs, phase by phase, and nothing more of them. */
  ghost function TrimBook(c: Config, b: Book, u: AccountId, ys: seq<nat>, k: nat): Book
    requires k <= c.N() == |ys|
  {
    if k == 0 then b else Put(TrimBook(c, b, u, ys, k - 1), c.At(k).iou, u, ys[k - 1])
  }

  lemma {:induction false} TrimBal(c: Config, b: Book, u: AccountId, ys: seq<nat>, k: nat)
    requires c.IousDistinct() && k <= c.N() == |ys|
    ensures forall a, v :: Bal(TrimBook(c, b, u, ys, k), a, v) ==
              if v == u && 0 < c.PhaseOf(a) <= k then ys[c.PhaseOf(a) - 1] else Bal(b, a, v)
  {
    if k > 0 {
      TrimBal(c, b, u, ys, k - 1);
      c.IouFound(k);
      forall a | c.PhaseOf(a) == k ensures a == c.At(k).iou { }
    }
  }

  ghost function Trim(c: Config, s: State, u: AccountId, ys: seq<nat>): State
    requires c.N() == |ys|
  {
    s.(free := TrimBook(c, s.free, u, ys, c.N()))
  }

  lemma TrimFacts(c: Config, s: State, u: AccountId, ys: seq<nat>)
    requires c.AssetsDistinct() && c.N() == |ys|
    ensures forall a, v :: Bal(Trim(c, s, u, ys).free, a, v) ==
              if v == u && c.IsIou(a) then ys[c.PhaseOf(a) - 1] else Bal(s.free, a, v)
    ensures forall p :: 1 <= p <= c.N() ==> Bal(Trim(c, s, u, ys).free, c.At(p).iou, u) == ys[p - 1]
    ensures forall i :: 0 <= i < c.N() ==> Held(c, Trim(c, s, u, ys), u)[i] == ys[i]
    ensures forall v :: Trim(c, s, u, ys).List(v) == s.List(v)
  {
    TrimBal(c, s.free, u, ys, c.N());
    forall p | 1 <= p <= c.N() ensures Bal(Trim(c, s, u, ys).free, c.At(p).iou, u) == ys[p - 1] { c.IouFound(p); }
    forall i | 0 <= i < c.N() ensures Held(c, Trim(c, s, u, ys), u)[i] == ys[i] { assert c.At(i + 1) == c.phases[i]; }
  }

  /** Of its IOUs, the account can hand in `ys`: it holds them, and would be pristine without the others. */
  ghost predicate Claim(c: Config, s: State, u: AccountId, ys: seq<nat>)
  {
    && |ys| == c.N() && u != c.collection
    && (forall p :: 1 <= p <= c.N() ==> ys[p - 1] <= Bal(s.free, c.At(p).iou, u))
    && Pristine(c, Trim(c, s, u, ys), u)
  }

  /** What it then has of the collected asset. */
  ghost function ClaimWorth(c: Config, s: State, u: AccountId, ys: seq<nat>): int
  {
    Bal(s.free, c.collected, u) + SumInts(ys, |ys|)
  }

  lemma WorthIsWealth(c: Config, s: State, u: AccountId, ys: seq<nat>)
    requires c.AssetsDistinct() && c.N() == |ys|
    ensures ClaimWorth(c, s, u, ys) == Wealth(c, Trim(c, s, u, ys), u)
  {
    TrimFacts(c, s, u, ys);
    WeighSame(c, Held(c, Trim(c, s, u, ys), u), ys, c.N());
  }

  /** The claim of `u` became `ys'`, and is worth as much as before or more. */
  ghost predicate Kept(c: Config, s: State, t: State, u: AccountId, ys: seq<nat>, ys': seq<nat>)
  {
    Claim(c, t, u, ys') && ClaimWorth(c, t, u, ys') >= ClaimWorth(c, s, u, ys)
  }

  /** A pristine account can claim all its IOUs. */
  lemma PristineClaims(c: Config, s: State, u: AccountId, ys: seq<nat>)
    requires c.AssetsDistinct() && Pristine(c, s, u) && |ys| == c.N()
    requires forall p :: 1 <= p <= c.N() ==> ys[p - 1] == Bal(s.free, c.At(p).iou, u)
    ensures Claim(c, s, u, ys) && ClaimWorth(c, s, u, ys) == Wealth(c, s, u)
  {
    TrimFacts(c, s, u, ys);
    forall a | c.IsIou(a) ensures Bal(Trim(c, s, u, ys).free, a, u) == Bal(s.free, a, u) { c.IouFound(c.PhaseOf(a)); }
    NotCollection(c, s, u);
    hide Pristine;
    PristineSame(c, s, Trim(c, s, u, ys), u);
    forall i | 0 <= i < c.N() ensures ys[i] == Held(c, s, u)[i] { assert c.At(i + 1) == c.phases[i]; }
    WeighSame(c, ys, Held(c, s, u), c.N());
  }

  // ---------------------------------------------------------------- what others do

  /** The account's lists stay put, and of the module's assets it has lost nothing. */
  ghost predicate NothingTaken(c: Config, s: State, t: State, u: AccountId)
  {
    && t.left == s.left && t.List(u) == s.List(u)
    && forall a :: a == c.share || a == c.collected || c.IsIou(a) ==> Bal(t.free, a, u) >= Bal(s.free, a, u)
  }

  /** Then, whatever it was sent, the claim stands. */
  lemma ClaimStands(c: Config, s: State, t: State, u: AccountId, ys: seq<nat>)
    requires c.AssetsDistinct() && Claim(c, s, u, ys) && NothingTaken(c, s, t, u)
    ensures Kept(c, s, t, u, ys, ys)
  {
    TrimFacts(c, s, u, ys);
    TrimFacts(c, t, u, ys);
    forall p | 1 <= p <= c.N() ensures ys[p - 1] <= Bal(t.free, c.At(p).iou, u) { c.IouFound(p); }
    hide Pristine;
    PristineSame(c, Trim(c, s, u, ys), Trim(c, t, u, ys), u);
  }

  /** Several things in a row. */
  lemma KeptTwice(c: Config, s: State, m: State, t: State, u: AccountId, ys: seq<nat>, ys': seq<nat>, ys'': seq<nat>)
    requires Kept(c, s, m, u, ys, ys') && Kept(c, m, t, u, ys', ys'')
    ensures Kept(c, s, t, u, ys, ys'')
  {
    hide Claim;
  }

  // ---------------------------------------------------------------- stakes

  /** The claim after a stake: larger by what was sold to the account itself. */
  ghost function Grown(c: Config, ys: seq<nat>, mine: bool, lo: nat, hi: nat): seq<nat>
    requires |ys| == c.N()
  {
    seq(c.N(), i requires 0 <= i < c.N() => ys[i] + if mine then c.Overlap(i + 1, lo, hi) else 0)
  }

  lemma SaleOfTrimmed(c: Config, s: State, t: State, who: AccountId, lo: nat, hi: nat, u: AccountId, ys: seq<nat>)
    requires c.AssetsDistinct() && |ys| == c.N()
    requires IousSold(c, s, t, who, lo, hi) && EntitledTo(c, s, t, who, c.Shares(lo, hi))
    requires VestingKept(c, s, t, who, lo, hi)
    ensures var ys' := Grown(c, ys, u == who, lo, hi);
            && IousSold(c, Trim(c, s, u, ys), Trim(c, t, u, ys'), who, lo, hi)
            && EntitledTo(c, Trim(c, s, u, ys), Trim(c, t, u, ys'), who, c.Shares(lo, hi))
            && VestingKept(c, Trim(c, s, u, ys), Trim(c, t, u, ys'), who, lo, hi)
  {
    var ys' := Grown(c, ys, u == who, lo, hi);
    SoldOfTrimmed(c, s, t, who, lo, hi, u, ys, ys');
    SharesOfTrimmed(c, s, u, ys);
    SharesOfTrimmed(c, t, u, ys');
    EntitledOfTrimmed(c, s, t, who, c.Shares(lo, hi), Trim(c, s, u, ys), Trim(c, t, u, ys'));
    VestingOfTrimmed(c, s, t, who, lo, hi, Trim(c, s, u, ys), Trim(c, t, u, ys'));
    hide *;
  }

  lemma SharesOfTrimmed(c: Config, s: State, u: AccountId, ys: seq<nat>)
    requires c.AssetsDistinct() && |ys| == c.N()
    ensures var m := Trim(c, s, u, ys);
            && m.left == s.left && m.Issued(c.share) == s.Issued(c.share) && m.Locked() == s.Locked()
            && (forall v :: m.List(v) == s.List(v)) && forall v :: Entitled(c, m, v) == Entitled(c, s, v)
  {
    TrimFacts(c, s, u, ys);
    LockedSame(s, Trim(c, s, u, ys));
  }

  lemma SoldOfTrimmed(c: Config, s: State, t: State, who: AccountId, lo: nat, hi: nat, u: AccountId, ys: seq<nat>,
                      ys': seq<nat>)
    requires c.AssetsDistinct() && |ys| == c.N() && ys' == Grown(c, ys, u == who, lo, hi)
    requires IousSold(c, s, t, who, lo, hi)
    ensures IousSold(c, Trim(c, s, u, ys), Trim(c, t, u, ys'), who, lo, hi)
  {
    hide Trim, Config.Overlap;
    TrimIssued(c, s, u, ys);
    TrimIssued(c, t, u, ys');
    forall p, v | 1 <= p <= c.N()
      ensures Trim(c, t, u, ys').Issued(c.At(p).iou) == Trim(c, s, u, ys).Issued(c.At(p).iou) + c.Overlap(p, lo, hi)
      ensures Bal(Trim(c, t, u, ys').free, c.At(p).iou, v) ==
              Bal(Trim(c, s, u, ys).free, c.At(p).iou, v) + if v == who then c.Overlap(p, lo, hi) else 0
    {
      TrimmedAt(c, s, u, ys, p, v);
      TrimmedAt(c, t, u, ys', p, v);
      GrownAt(c, ys, u == who, lo, hi, p);
    }
  }

  lemma TrimmedAt(c: Config, s: State, u: AccountId, ys: seq<nat>, p: nat, v: AccountId)
    requires c.AssetsDistinct() && |ys| == c.N() && 1 <= p <= c.N()
    ensures Bal(Trim(c, s, u, ys).free, c.At(p).iou, v) == if v == u then ys[p - 1] else Bal(s.free, c.At(p).iou, v)
  {
    TrimFacts(c, s, u, ys);
  }

  lemma GrownAt(c: Config, ys: seq<nat>, mine: bool, lo: nat, hi: nat, p: nat)
    requires |ys| == c.N() && 1 <= p <= c.N()
    ensures Grown(c, ys, mine, lo, hi)[p - 1] == ys[p - 1] + if mine then c.Overlap(p, lo, hi) else 0
  {
  }

  lemma TrimIssued(c: Config, s: State, u: AccountId, ys: seq<nat>)
    requires |ys| == c.N()
    ensures forall a :: Trim(c, s, u, ys).Issued(a) == s.Issued(a)
  {
  }

  lemma EntitledOfTrimmed(c: Config, s: State, t: State, who: AccountId, shares: int, m: State, n: State)
    requires EntitledTo(c, s, t, who, shares)
    requires forall v :: Entitled(c, m, v) == Entitled(c, s, v)
    requires forall v :: Entitled(c, n, v) == Entitled(c, t, v)
    requires m.Issued(c.share) == s.Issued(c.share) && m.Locked() == s.Locked()
    requires n.Issued(c.share) == t.Issued(c.share) && n.Locked() == t.Locked()
    ensures EntitledTo(c, m, n, who, shares)
  {
    hide Entitled;
  }

  lemma VestingOfTrimmed(c: Config, s: State, t: State, who: AccountId, lo: nat, hi: nat, m: State, n: State)
    requires VestingKept(c, s, t, who, lo, hi) && m.left == s.left && n.left == t.left
    requires (forall v :: m.List(v) == s.List(v)) && forall v :: n.List(v) == t.List(v)
    ensures VestingKept(c, m, n, who, lo, hi)
  {
    forall v, p, b: nat | 1 <= p <= c.N() && ShareOf(c, m, v, p, b)
      ensures ShareOf(c, n, v, p, b + if v == who then c.Overlap(p, lo, hi) else 0)
    {
      assert ShareOf(c, s, v, p, b);
      assert ShareOf(c, t, v, p, b + if v == who then c.Overlap(p, lo, hi) else 0);
    }
  }

  /** A sale keeps every claim, and adds to the buyer's what it cost. */
  lemma ClaimStakes(c: Config, s: State, t: State, who: AccountId, lo: nat, hi: nat, u: AccountId, ys: seq<nat>)
    requires c.AssetsDistinct() && lo <= hi <= c.Capacity() && Claim(c, s, u, ys)
    requires IousSold(c, s, t, who, lo, hi) && EntitledTo(c, s, t, who, c.Shares(lo, hi))
    requires VestingKept(c, s, t, who, lo, hi)
    ensures var ys' := Grown(c, ys, u == who, lo, hi);
            && Claim(c, t, u, ys') && SumInts(ys', |ys'|) == SumInts(ys, |ys|) + if u == who then hi - lo else 0
  {
    var ys' := Grown(c, ys, u == who, lo, hi);
    var m, n := Trim(c, s, u, ys), Trim(c, t, u, ys');
    SaleOfTrimmed(c, s, t, who, lo, hi, u, ys);
    TrimFacts(c, s, u, ys);
    TrimFacts(c, t, u, ys');
    forall p | 1 <= p <= c.N() ensures ys'[p - 1] <= Bal(t.free, c.At(p).iou, u) {
      assert Bal(t.free, c.At(p).iou, u) == Bal(s.free, c.At(p).iou, u) + if u == who then c.Overlap(p, lo, hi) else 0;
    }
    hide IousSold, EntitledTo, VestingKept, Pristine, Trim;
    SaleKeepsPristine(c, m, n, who, lo, hi, u);
    SaleHeld(c, m, n, who, lo, hi, u);
    WeighSame(c, Held(c, m, u), ys, c.N());
    WeighSame(c, Held(c, n, u), ys', c.N());
  }

  /** A staking call, one's own or somebody else's. */
  lemma PaidStakeKeepsClaim(c: Config, s: State, t: State, who: AccountId, x: nat, u: AccountId, ys: seq<nat>)
    requires c.WellFormed() && StakePaid(c, s, t, who, x) && Claim(c, s, u, ys)
    ensures Kept(c, s, t, u, ys, Grown(c, ys, u == who, Cum(c, s), Cum(c, t)))
  {
    PositionIsCanonical(c, t, t);
    var lo, hi := Cum(c, s), Cum(c, t);
    assert IousSold(c, s, t, who, lo, hi) && EntitledTo(c, s, t, who, c.Shares(lo, hi));
    assert VestingKept(c, s, t, who, lo, hi);
    assert Bal(t.free, c.collected, u) >= Bal(s.free, c.collected, u) - if u == who then x else 0;
    hide IousSold, EntitledTo, VestingKept, Claim;
    ClaimStakes(c, s, t, who, lo, hi, u, ys);
  }

  /** The part of a stake by transfer that follows the transfer. */
  lemma HookStakeKeepsClaim(c: Config, m: State, t: State, who: AccountId, x: nat, u: AccountId, ys: seq<nat>)
    requires c.WellFormed() && StakeDone(c, m, t, who, x) && Claim(c, m, u, ys)
    ensures InPhase(c, m) && InPhase(c, t)
    ensures var ys' := Grown(c, ys, u == who, Cum(c, m), Cum(c, t));
            Claim(c, t, u, ys') && ClaimWorth(c, t, u, ys') == ClaimWorth(c, m, u, ys) + if u == who then x else 0
  {
    PositionIsCanonical(c, t, t);
    var lo, hi := Cum(c, m), Cum(c, t);
    assert IousSold(c, m, t, who, lo, hi) && EntitledTo(c, m, t, who, c.Shares(lo, hi));
    assert VestingKept(c, m, t, who, lo, hi);
    assert Bal(t.free, c.collected, u) == Bal(m.free, c.collected, u);
    hide IousSold, EntitledTo, VestingKept, Claim, OthersKept;
    ClaimStakes(c, m, t, who, lo, hi, u, ys);
  }

  // ---------------------------------------------------------------- one's own redemptions

  /** A piece of the claim, safe for it. */
  ghost predicate PieceOfClaim(c: Config, s: State, u: AccountId, ys: seq<nat>, p: nat, x: nat)
    requires 1 <= p <= c.N()
  {
    |ys| == c.N() && s.left >= 1 && x <= ys[p - 1] && PieceSafe(c, Trim(c, s, u, ys), u, p, x)
  }

  lemma RedemptionOfTrimmed(c: Config, s: State, t: State, u: AccountId, ys: seq<nat>, p: nat, x: nat, burnt: bool)
    requires c.AssetsDistinct() && u != c.collection && |ys| == c.N() && 1 <= p <= c.N() && x <= ys[p - 1]
    requires s.left >= 1
    requires RedeemedFor(c, s, t, u, p, x, burnt)
    ensures RedeemedFor(c, Trim(c, s, u, ys), Trim(c, t, u, ys[p - 1 := ys[p - 1] - x]), u, p, x, burnt)
  {
    var ys' := ys[p - 1 := ys[p - 1] - x];
    var m, n := Trim(c, s, u, ys), Trim(c, t, u, ys');
    var take := RedeemTake(c, s, u, p, x);
    TrimmedPockets(c, s, u, ys);
    SameTake(c, s, m, u, p, x);
    PlaceOfTrimmed(c, s, t, u, ys, ys');
    assert ListsShrink(c, s, t, u, p, take.1) && RedeemBalances(c, s, t, u, c.At(p).iou, x, take.0, burnt);
    hide RedeemTake, PacksVest, Trim, PhaseTotal, ListTotal, ListsShrink, RedeemBalances;
    ShrinkOfTrimmed(c, s, t, u, p, take.1, ys, ys');
    BalancesOfTrimmed(c, s, t, u, ys, p, x, take.0, burnt);
  }

  /** What the check and the pockets look at is the same. */
  lemma TrimmedPockets(c: Config, s: State, u: AccountId, ys: seq<nat>)
    requires c.AssetsDistinct() && |ys| == c.N()
    ensures var m := Trim(c, s, u, ys);
            m.left == s.left && m.List(u) == s.List(u) && Bal(m.free, c.share, u) == Bal(s.free, c.share, u)
  {
    TrimFacts(c, s, u, ys);
  }

  lemma PlaceOfTrimmed(c: Config, s: State, t: State, u: AccountId, ys: seq<nat>, ys': seq<nat>)
    requires |ys| == |ys'| == c.N() && SamePosition(s, t) && SameIndex(s, t) && PacksVest(c, t)
    ensures var m, n := Trim(c, s, u, ys), Trim(c, t, u, ys');
            SamePosition(m, n) && SameIndex(m, n) && PacksVest(c, n)
  {
  }

  lemma ShrinkOfTrimmed(c: Config, s: State, t: State, u: AccountId, p: nat, taken: nat, ys: seq<nat>, ys': seq<nat>)
    requires |ys| == |ys'| == c.N() && ListsShrink(c, s, t, u, p, taken)
    ensures ListsShrink(c, Trim(c, s, u, ys), Trim(c, t, u, ys'), u, p, taken)
  {
    LockedSame(s, Trim(c, s, u, ys));
    LockedSame(t, Trim(c, t, u, ys'));
    hide PhaseTotal, ListTotal;
  }

  lemma BalancesOfTrimmed(c: Config, s: State, t: State, u: AccountId, ys: seq<nat>, p: nat, x: nat, burned: nat,
                          burnt: bool)
    requires c.AssetsDistinct() && u != c.collection && |ys| == c.N() && 1 <= p <= c.N() && x <= ys[p - 1]
    requires RedeemBalances(c, s, t, u, c.At(p).iou, x, burned, burnt)
    ensures RedeemBalances(c, Trim(c, s, u, ys), Trim(c, t, u, ys[p - 1 := ys[p - 1] - x]), u, c.At(p).iou, x, burned,
                           burnt)
  {
    var ys' := ys[p - 1 := ys[p - 1] - x];
    TrimIssued(c, s, u, ys);
    TrimIssued(c, t, u, ys');
    hide Trim;
    forall a, v
      ensures Bal(Trim(c, t, u, ys').free, a, v) ==
          Bal(Trim(c, s, u, ys).free, a, v) + Bal(t.free, a, v) - Bal(s.free, a, v)
    {
      DiffOfTrimmed(c, s, t, u, ys, p, x, burned, burnt, a, v);
    }
  }

  lemma DiffOfTrimmed(c: Config, s: State, t: State, u: AccountId, ys: seq<nat>, p: nat, x: nat, burned: nat,
                      burnt: bool, a: AssetId, v: AccountId)
    requires c.AssetsDistinct() && u != c.collection && |ys| == c.N() && 1 <= p <= c.N() && x <= ys[p - 1]
    requires RedeemBalances(c, s, t, u, c.At(p).iou, x, burned, burnt)
    ensures var ys' := ys[p - 1 := ys[p - 1] - x];
            Bal(Trim(c, t, u, ys').free, a, v) ==
                Bal(Trim(c, s, u, ys).free, a, v) + Bal(t.free, a, v) - Bal(s.free, a, v)
  {
    var ys' := ys[p - 1 := ys[p - 1] - x];
    TrimFacts(c, s, u, ys);
    TrimFacts(c, t, u, ys');
    c.IouFound(p);
    hide Trim;
    if v == u && c.IsIou(a) {
      assert c.PhaseOf(a) == p <==> a == c.At(p).iou;
    }
  }

  /** Redeeming a safe piece of the claim leaves the rest of it, at the same worth. */
  lemma PieceKeepsClaim(c: Config, s: State, t: State, u: AccountId, ys: seq<nat>, p: nat, x: nat, burnt: bool)
    requires c.WellFormed() && Claim(c, s, u, ys) && 1 <= p <= c.N() && PieceOfClaim(c, s, u, ys, p, x)
    requires CheckCanRedeem(c, s.left, Bal(s.free, c.share, u), s.List(u), p, x).Done?
    requires RedeemedFor(c, s, t, u, p, x, burnt)
    ensures Kept(c, s, t, u, ys, ys[p - 1 := ys[p - 1] - x])
  {
    var ys' := ys[p - 1 := ys[p - 1] - x];
    var m, n := Trim(c, s, u, ys), Trim(c, t, u, ys');
    ClaimHolds(c, s, u, ys, p);
    NewClaimHolds(c, s, t, u, ys, p, x, burnt);
    TrimmedPockets(c, s, u, ys);
    assert PieceSafe(c, m, u, p, x) && x <= ys[p - 1] && s.left >= 1;
    hide RedeemedFor, Pristine, PieceSafe, CheckCanRedeem, Wealth, Surplus, Trim, RedeemTake, Claim, PieceOfClaim;
    WorthIsWealth(c, s, u, ys);
    WorthIsWealth(c, t, u, ys');
    RedemptionOfTrimmed(c, s, t, u, ys, p, x, burnt);
    TrimmedAt(c, s, u, ys, p, u);
    PieceKeepsWay(c, m, n, u, p, x, burnt);
    MakesClaim(c, t, u, ys');
  }

  lemma ClaimHolds(c: Config, s: State, u: AccountId, ys: seq<nat>, p: nat)
    requires Claim(c, s, u, ys) && 1 <= p <= c.N()
    ensures u != c.collection && ys[p - 1] <= Bal(s.free, c.At(p).iou, u) && Pristine(c, Trim(c, s, u, ys), u)
  {
    hide Pristine;
  }

  lemma MakesClaim(c: Config, s: State, u: AccountId, ys: seq<nat>)
    requires |ys| == c.N() && u != c.collection && Pristine(c, Trim(c, s, u, ys), u)
    requires forall p :: 1 <= p <= c.N() ==> ys[p - 1] <= Bal(s.free, c.At(p).iou, u)
    ensures Claim(c, s, u, ys)
  {
    hide Pristine;
  }

  lemma NewClaimHolds(c: Config, s: State, t: State, u: AccountId, ys: seq<nat>, p: nat, x: nat, burnt: bool)
    requires c.AssetsDistinct() && Claim(c, s, u, ys) && 1 <= p <= c.N() && s.left >= 1 && x <= ys[p - 1]
    requires RedeemedFor(c, s, t, u, p, x, burnt)
    ensures var ys' := ys[p - 1 := ys[p - 1] - x];
            forall q :: 1 <= q <= c.N() ==> ys'[q - 1] <= Bal(t.free, c.At(q).iou, u)
  {
    hide Pristine, RedeemTake;
    OwnIous(c, s, t, u, p, x, RedeemTake(c, s, u, p, x).0, burnt);
  }

  /** The claim's share of a phase goes through as a whole, whenever the module runs. */
  lemma ClaimRedeems(c: Config, s: State, u: AccountId, ys: seq<nat>, p: nat)
    requires c.WellFormed() && Core(c, s) && !s.paused && Claim(c, s, u, ys) && 1 <= p <= c.N() && HeldIsIssued(c, s, u)
    ensures InPhase(c, s) && RedeemAccepted(c, s, u, c.At(p).iou, ys[p - 1]) && !LeavesUneven(c, s, u, p, ys[p - 1])
    ensures PieceOfClaim(c, s, u, ys, p, ys[p - 1])
  {
    var m := Trim(c, s, u, ys);
    TrimFacts(c, s, u, ys);
    TrimIssued(c, s, u, ys);
    assert Core(c, m) by { SameCore(c, s, u, ys); }
    c.IouFound(p);
    assert HeldIsIssued(c, m, u);
    hide Pristine, Core, CheckCanRedeem, RedeemTake, PhaseTotal;
    WholePhaseRedeems(c, m, u, p, ys[p - 1]);
    assert RedeemTake(c, s, u, p, ys[p - 1]) == RedeemTake(c, m, u, p, ys[p - 1]) by {
      SameTake(c, s, m, u, p, ys[p - 1]);
    }
  }

  lemma SameTake(c: Config, s: State, m: State, u: AccountId, p: nat, x: nat)
    requires 1 <= p <= c.N() && s.left >= 1 && m.left == s.left && m.List(u) == s.List(u)
    requires Bal(m.free, c.share, u) == Bal(s.free, c.share, u)
    ensures RedeemTake(c, s, u, p, x) == RedeemTake(c, m, u, p, x)
  {
  }

  lemma SafeSame(c: Config, s: State, m: State, u: AccountId, p: nat, x: nat)
    requires 1 <= p <= c.N() && s.left >= 1 && m.left == s.left && m.List(u) == s.List(u)
    requires Bal(m.free, c.share, u) == Bal(s.free, c.share, u)
    requires Bal(m.free, c.At(p).iou, u) == Bal(s.free, c.At(p).iou, u)
    ensures PieceSafe(c, s, u, p, x) <==> PieceSafe(c, m, u, p, x)
  {
    SameTake(c, s, m, u, p, x);
    hide RedeemTake, PhaseTotal;
  }

  lemma SameCore(c: Config, s: State, u: AccountId, ys: seq<nat>)
    requires c.AssetsDistinct() && Core(c, s) && u != c.collection && |ys| == c.N()
    ensures Core(c, Trim(c, s, u, ys))
  {
    var m := Trim(c, s, u, ys);
    TrimFacts(c, s, u, ys);
    hide Core;
    SameLaws(c, s, m);
  }
}
