/** An account that redeems its IOUs one by one, and is refused half way, though all that is left
    would go through at once.  Two phases at one share
    per unit, the first one current; the account has staked 10, so that 5 shares are free and 5
    are due with the second phase.  Half of every piece is to come from each pocket, but a
    single IOU is rounded to 1 free share and no locked one. */
module SinglePieces {
  import opened Primitives
  import opened Books
  import opened VestingPacks
  import opened PackLists
  import opened SavingModel
  import opened SavingLaws
  import opened RedeemLaws
  import opened DispatchLaws
  import opened TransferLaws
  import opened RoundTrip
  import opened Pieces
  import opened WaysOut

  const ACCOUNT: AccountId := 1
  const COLLECTION: AccountId := 2

  const IOU: AssetId := 1
  const SHARE: AssetId := 3
  const COLLECTED: AssetId := 4

  const TWO_PHASES: Config := Config(
    [Phase(20, 1, IOU), Phase(20, 1, 2)], COLLECTED, COLLECTION, SHARE, 5, 3, 6, 4, 5)

  /** Before anything was staked. */
  function Genesis(): State
  {
    State(map[COLLECTED := map[ACCOUNT := 10]], map[COLLECTED := 10], map[], 1, 0, 2, map[], 0, false, false)
  }

  const SECOND_TERM: Pack := Pack(SHARE, ACCOUNT, 1, false, SharePackage(2, 1, 5), None)

  /** After the stake and `k` single redemptions. */
  function After(k: nat): State
    requires k <= 5
  {
    State(
      map[SHARE := map[ACCOUNT := 5 - k],
          IOU := map[ACCOUNT := 10 - k],
          COLLECTED := map[ACCOUNT := k, COLLECTION := 10 - k]],
      map[SHARE := 5 - k, IOU := 10 - k, COLLECTED := 10],
      map[ACCOUNT := [SECOND_TERM]], 1, 10, 2, map[ACCOUNT := 5], 5, false, false)
  }

  lemma ConfigIsWellFormed()
    ensures TWO_PHASES.WellFormed()
    ensures TWO_PHASES.Shares(0, 10) == 10 && TWO_PHASES.Overlap(1, 0, 10) == 10 && TWO_PHASES.Overlap(2, 0, 10) == 0
    ensures TWO_PHASES.PhaseOf(IOU) == 1
  {
    var c := TWO_PHASES;
    assert c.Upto(0) == 0 && c.Upto(1) == 20 && c.Upto(2) == 40;
    WeighTwo(c.Overlaps(0, 40));
    WeighTwo(c.Overlaps(0, 10));
    assert c.Find(IOU, 1) == 1 && c.Find(IOU, 2) == 1;
  }

  lemma WeighTwo(xs: seq<int>)
    requires |xs| == 2
    ensures TWO_PHASES.Weigh(xs, 2) == xs[0] + xs[1] && SumInts(xs, 2) == xs[0] + xs[1]
  {
    var c := TWO_PHASES;
    assert c.Weigh(xs, 1) == c.Weigh(xs, 0) + xs[0] && c.Weigh(xs, 2) == c.Weigh(xs, 1) + xs[1];
    assert SumInts(xs, 1) == SumInts(xs, 0) + xs[0] && SumInts(xs, 2) == SumInts(xs, 1) + xs[1];
  }

  lemma ListFacts(k: nat)
    requires k <= 5
    ensures After(k).List(ACCOUNT) == [SECOND_TERM] && ListTotal([SECOND_TERM]) == 5
    ensures forall q :: PhaseTotal([SECOND_TERM], SHARE, q) == if q == 1 then 5 else 0
    ensures ListVests([SECOND_TERM], SHARE, ACCOUNT, 2, 2)
    ensures After(k).Locked() == 5 && Sum(After(k).accountShares) == 5
  {
    AppendTotals([], SECOND_TERM);
    assert [] + [SECOND_TERM] == [SECOND_TERM];
    SumSet(map[], ACCOUNT, 5);
    assert map[][ACCOUNT := 5] == map[ACCOUNT := 5];
    assert After(k).Totals() == map[ACCOUNT := 5];
  }

  /** All of these states obey the laws. */
  lemma StatesAreLawful(k: nat)
    requires k <= 5
    ensures Inv(TWO_PHASES, After(k))
  {
    var c, s := TWO_PHASES, After(k);
    ConfigIsWellFormed();
    ListFacts(k);
    assert Cum(c, s) == 10;
    WeighTwo(Outstanding(c, s));
    assert Outstanding(c, s) == [10 - k, 0];
    assert Capped(c, s) && Backed(c, s) && Covered(c, s) && Indexed(c, s) && PacksVest(c, s);
  }

  /** The account has its way out after the stake. */
  lemma StakerIsPristine()
    ensures Pristine(TWO_PHASES, After(0), ACCOUNT)
  {
    var c, s := TWO_PHASES, After(0);
    ListFacts(0);
    WeighTwo(Held(c, s, ACCOUNT));
    assert ShareAt(c, s, ACCOUNT, 1) && ShareAt(c, s, ACCOUNT, 2);
  }

  /** Each single redemption is accepted, takes its share from the free ones, and leads on to the next state. */
  lemma NextPiece(k: nat)
    requires k < 5
    ensures InPhase(TWO_PHASES, After(k)) && RedeemAccepted(TWO_PHASES, After(k), ACCOUNT, IOU, 1)
    ensures !LeavesUneven(TWO_PHASES, After(k), ACCOUNT, 1, 1)
    ensures RedeemedFor(TWO_PHASES, After(k), After(k + 1), ACCOUNT, 1, 1, true)
  {
    var c, s, t := TWO_PHASES, After(k), After(k + 1);
    ConfigIsWellFormed();
    ListFacts(k);
    ListFacts(k + 1);
    assert LockedPart(c, 1, 2, 1) == 0;
    assert RedeemTake(c, s, ACCOUNT, 1, 1) == (1, 0);
    assert SplitsEvenly(5, 1);
    PieceBooks(k);
    assert ListsShrink(c, s, t, ACCOUNT, 1, 0);
    assert PacksVest(c, t);
    hide RedeemBalances, ListsShrink, PacksVest, PhaseTotal, RedeemTake;
  }

  lemma PieceBooks(k: nat)
    requires k < 5
    ensures RedeemBalances(TWO_PHASES, After(k), After(k + 1), ACCOUNT, IOU, 1, 1, true)
  {
  }

  /** Single redemptions get stuck.  After the stake the laws hold and the account has its way out; five
      times it redeems one IOU.  The sixth is refused, although 5 IOUs and 5 shares are left; all
      five at once would be accepted. */
  lemma SingleRedemptionsGetStuck()
    ensures TWO_PHASES.WellFormed() && Pristine(TWO_PHASES, After(0), ACCOUNT)
    ensures forall k :: 0 <= k <= 5 ==> Inv(TWO_PHASES, After(k))
    ensures forall k :: 0 <= k < 5 ==>
      && RedeemAccepted(TWO_PHASES, After(k), ACCOUNT, IOU, 1) && !LeavesUneven(TWO_PHASES, After(k), ACCOUNT, 1, 1)
      && RedeemedFor(TWO_PHASES, After(k), After(k + 1), ACCOUNT, 1, 1, true)
    ensures Bal(After(5).free, IOU, ACCOUNT) == 5 && Entitled(TWO_PHASES, After(5), ACCOUNT) == 5
    ensures !RedeemAccepted(TWO_PHASES, After(5), ACCOUNT, IOU, 1)
    ensures RedeemAccepted(TWO_PHASES, After(5), ACCOUNT, IOU, 5)
  {
    hide Inv, RedeemedFor, LeavesUneven, RedeemAccepted, Pristine;
    ConfigIsWellFormed();
    StakerIsPristine();
    forall k | 0 <= k <= 5 ensures Inv(TWO_PHASES, After(k)) { StatesAreLawful(k); }
    forall k | 0 <= k < 5
      ensures InPhase(TWO_PHASES, After(k)) && RedeemAccepted(TWO_PHASES, After(k), ACCOUNT, IOU, 1)
      ensures !LeavesUneven(TWO_PHASES, After(k), ACCOUNT, 1, 1)
      ensures RedeemedFor(TWO_PHASES, After(k), After(k + 1), ACCOUNT, 1, 1, true)
    {
      NextPiece(k);
    }
    LastPieces();
  }

  lemma LastPieces()
    ensures InPhase(TWO_PHASES, After(5))
    ensures Bal(After(5).free, IOU, ACCOUNT) == 5 && Entitled(TWO_PHASES, After(5), ACCOUNT) == 5
    ensures !RedeemAccepted(TWO_PHASES, After(5), ACCOUNT, IOU, 1)
    ensures RedeemAccepted(TWO_PHASES, After(5), ACCOUNT, IOU, 5)
  {
    ConfigIsWellFormed();
    ListFacts(5);
    assert LockedPart(TWO_PHASES, 1, 2, 1) == 0 && LockedPart(TWO_PHASES, 1, 2, 5) == 2;
  }

  /** The first of these pieces is not safe, and the account is not pristine afterwards; but whatever the
      number of pieces, the rest goes through at once. */
  lemma UnsafeButOpen()
    ensures InPhase(TWO_PHASES, After(0)) && !PieceSafe(TWO_PHASES, After(0), ACCOUNT, 1, 1)
    ensures !Pristine(TWO_PHASES, After(1), ACCOUNT)
    ensures forall k :: 0 <= k <= 5 ==> RestGoes(After(k))
  {
    ConfigIsWellFormed();
    ListFacts(0);
    ListFacts(1);
    assert !ShareAt(TWO_PHASES, After(1), ACCOUNT, 1);
    assert LockedPart(TWO_PHASES, 1, 2, 1) == 0;
    forall k | 0 <= k <= 5 ensures RestGoes(After(k)) { OneGoes(k); }
  }

  ghost predicate RestGoes(s: State)
  {
    PartsFit(TWO_PHASES, s, ACCOUNT) && AllGo(TWO_PHASES, s, ACCOUNT, [1], Bal(s.free, SHARE, ACCOUNT))
  }

  lemma OneGoes(k: nat)
    requires k <= 5
    ensures RestGoes(After(k))
  {
    var c, s := TWO_PHASES, After(k);
    ConfigIsWellFormed();
    StatesAreLawful(k);
    ListFacts(k);
    WeighTwo(Held(c, s, ACCOUNT));
    assert Held(c, s, ACCOUNT) == [10 - k, 0];
    assert OnlyPhase(c, s, ACCOUNT, 1);
    hide Inv, OnlyPhase, AllGo;
    InvParts(c, s);
    OnlyPhaseGoes(c, s, ACCOUNT, 1);
  }

  /** The first of the states is where a stake of 10 leads from genesis. */
  lemma StakeLeadsThere()
    ensures Inv(TWO_PHASES, Genesis()) && StakePaid(TWO_PHASES, Genesis(), After(0), ACCOUNT, 10)
  {
    var c, g, s := TWO_PHASES, Genesis(), After(0);
    ConfigIsWellFormed();
    GenesisIsLawful();
    assert Cum(c, g) == 0 && Cum(c, s) == 10;
    StakeEntitles();
    StakeVests();
    assert IousSold(c, g, s, ACCOUNT, 0, 10);
    hide Inv, EntitledTo, VestingKept, IousSold;
  }

  lemma StakeEntitles()
    ensures EntitledTo(TWO_PHASES, Genesis(), After(0), ACCOUNT, 10)
  {
    var c, g, s := TWO_PHASES, Genesis(), After(0);
    ListFacts(0);
    assert g.Totals() == map[];
    forall u ensures Entitled(c, s, u) == Entitled(c, g, u) + if u == ACCOUNT then 10 else 0 {
      assert u != ACCOUNT ==> s.List(u) == [];
      assert g.List(u) == [];
    }
  }

  lemma StakeVests()
    ensures VestingKept(TWO_PHASES, Genesis(), After(0), ACCOUNT, 0, 10)
  {
    var c, g, s := TWO_PHASES, Genesis(), After(0);
    ConfigIsWellFormed();
    ListFacts(0);
    forall u, p, b: nat | 1 <= p <= c.N() && ShareOf(c, g, u, p, b)
      ensures ShareOf(c, s, u, p, b + if u == ACCOUNT then c.Overlap(p, 0, 10) else 0)
    {
      assert u != ACCOUNT ==> s.List(u) == [];
    }
  }

  lemma GenesisIsLawful()
    ensures Inv(TWO_PHASES, Genesis())
  {
    var c, g := TWO_PHASES, Genesis();
    ConfigIsWellFormed();
    assert c.Upto(1) == 20 && Cum(c, g) == 0;
    WeighTwo(Outstanding(c, g));
    WeighTwo(c.Overlaps(0, 0));
    assert Outstanding(c, g) == [0, 0];
    assert g.Totals() == map[];
    assert Capped(c, g) && Backed(c, g) && Covered(c, g) && Indexed(c, g) && PacksVest(c, g);
  }
}
