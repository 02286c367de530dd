/** A way out that closes.  Three phases at one share per unit, the second one current; the account has
    staked 2 in the first phase, where the quota ended, and 2 in the second, so that 3 shares
    are free and 1 is due with the last phase.  It redeems the 2 IOUs of the second phase one
    by one: each takes a free share, and the locked one is left to a phase without IOUs. */
module ClosedWay {
  import opened Primitives
  import opened Books
  import opened VestingPacks
  import opened PackLists
  import opened SavingModel
  import opened SavingLaws
  import opened StakePanicLaws
  import opened RedeemLaws
  import opened DispatchLaws
  import opened RoundTrip
  import opened TransferLaws
  import opened Pieces
  import opened WaysOut

  const ACCOUNT: AccountId := 1
  const COLLECTION: AccountId := 2

  const FIRST: AssetId := 1
  const SECOND: AssetId := 2
  const SHARE: AssetId := 4
  const COLLECTED: AssetId := 5

  const THREE_PHASES: Config := Config(
    [Phase(2, 1, FIRST), Phase(20, 1, SECOND), Phase(20, 1, 3)], COLLECTED, COLLECTION, SHARE, 6, 3, 7, 4, 5)

  /** Before anything was staked. */
  const GENESIS: State := State(
    map[COLLECTED := map[ACCOUNT := 4]], map[COLLECTED := 4],
    map[], 1, 0, 3, map[], 0, false, false)

  /** What is stored of the first stake: a last payout of nothing. */
  const EMPTY_TERM: Pack := Pack(SHARE, ACCOUNT, 1, false, SharePackage(3, 0, 1), Some(SharePackage(1, 1, 0)))

  const LAST_TERM: Pack := Pack(SHARE, ACCOUNT, 2, false, SharePackage(2, 1, 1), None)

  /** After the first stake, which opened the second phase. */
  const BETWEEN: State := State(
    map[SHARE := map[ACCOUNT := 2], FIRST := map[ACCOUNT := 2], COLLECTED := map[ACCOUNT := 2, COLLECTION := 2]],
    map[SHARE := 2, FIRST := 2, COLLECTED := 4],
    map[ACCOUNT := [EMPTY_TERM]], 2, 0, 2, map[ACCOUNT := 2], 2, false, false)

  /** After both stakes, `j` redemptions of the second phase, and `k` of the first. */
  function After(j: nat, k: nat): State
    requires j <= 2 && k <= 1 && j + k <= 3
  {
    State(
      map[SHARE := map[ACCOUNT := 3 - j - k],
          FIRST := map[ACCOUNT := 2 - k],
          SECOND := map[ACCOUNT := 2 - j],
          COLLECTED := map[ACCOUNT := j + k, COLLECTION := 4 - j - k]],
      map[SHARE := 3 - j - k, FIRST := 2 - k, SECOND := 2 - j, COLLECTED := 4],
      map[ACCOUNT := [EMPTY_TERM, LAST_TERM]], 2, 2, 2, map[ACCOUNT := 3], 3, false, false)
  }

  lemma ConfigIsWellFormed()
    ensures THREE_PHASES.WellFormed()
    ensures THREE_PHASES.Shares(0, 4) == 4 && THREE_PHASES.Shares(0, 2) == 2 && THREE_PHASES.Shares(2, 4) == 2
    ensures THREE_PHASES.Upto(0) == 0 && THREE_PHASES.Upto(1) == 2 && THREE_PHASES.Upto(2) == 22
    ensures THREE_PHASES.Upto(3) == 42
    ensures THREE_PHASES.PhaseOf(FIRST) == 1 && THREE_PHASES.PhaseOf(SECOND) == 2
  {
    var c := THREE_PHASES;
    assert c.Upto(0) == 0 && c.Upto(1) == 2 && c.Upto(2) == 22 && c.Upto(3) == 42;
    WeighThree(c.Overlaps(0, 42));
    WeighThree(c.Overlaps(0, 4));
    WeighThree(c.Overlaps(0, 2));
    WeighThree(c.Overlaps(2, 4));
    Finds();
  }

  lemma Finds()
    ensures THREE_PHASES.PhaseOf(FIRST) == 1 && THREE_PHASES.PhaseOf(SECOND) == 2 && THREE_PHASES.PhaseOf(3) == 3
    ensures forall a: AssetId :: THREE_PHASES.IsIou(a) <==> 1 <= a <= 3
  {
    var c := THREE_PHASES;
    forall a: AssetId ensures c.PhaseOf(a) == if 1 <= a <= 3 then a else 0 {
      assert c.Find(a, 3) == if a == 3 then 3 else c.Find(a, 2);
      assert c.Find(a, 2) == if a == 2 then 2 else c.Find(a, 1);
      assert c.Find(a, 1) == if a == 1 then 1 else c.Find(a, 0);
    }
  }

  lemma WeighThree(xs: seq<int>)
    requires |xs| == 3
    ensures THREE_PHASES.Weigh(xs, 3) == xs[0] + xs[1] + xs[2] && SumInts(xs, 3) == xs[0] + xs[1] + xs[2]
  {
    var c := THREE_PHASES;
    assert c.Weigh(xs, 1) == c.Weigh(xs, 0) + xs[0] && c.Weigh(xs, 2) == c.Weigh(xs, 1) + xs[1];
    assert c.Weigh(xs, 3) == c.Weigh(xs, 2) + xs[2];
    assert SumInts(xs, 1) == SumInts(xs, 0) + xs[0] && SumInts(xs, 2) == SumInts(xs, 1) + xs[1];
    assert SumInts(xs, 3) == SumInts(xs, 2) + xs[2];
  }

  lemma ListFacts()
    ensures ListTotal([EMPTY_TERM]) == 0 && ListTotal([EMPTY_TERM, LAST_TERM]) == 1
    ensures forall q :: PhaseTotal([EMPTY_TERM], SHARE, q) == 0
    ensures forall q :: PhaseTotal([EMPTY_TERM, LAST_TERM], SHARE, q) == if q == 2 then 1 else 0
    ensures ListVests([EMPTY_TERM], SHARE, ACCOUNT, 3, 2) && ListVests([EMPTY_TERM, LAST_TERM], SHARE, ACCOUNT, 3, 2)
  {
    AppendTotals([], EMPTY_TERM);
    assert [] + [EMPTY_TERM] == [EMPTY_TERM];
    AppendTotals([EMPTY_TERM], LAST_TERM);
    assert [EMPTY_TERM] + [LAST_TERM] == [EMPTY_TERM, LAST_TERM];
  }

  lemma AfterFacts(j: nat, k: nat)
    requires j <= 2 && k <= 1 && j + k <= 3
    ensures After(j, k).List(ACCOUNT) == [EMPTY_TERM, LAST_TERM] && After(j, k).Locked() == 1
    ensures Sum(After(j, k).accountShares) == 3
  {
    ListFacts();
    SumSet(map[], ACCOUNT, 1);
    assert map[][ACCOUNT := 1] == map[ACCOUNT := 1];
    assert After(j, k).Totals() == map[ACCOUNT := 1];
    SumSet(map[], ACCOUNT, 3);
    assert map[][ACCOUNT := 3] == map[ACCOUNT := 3];
  }

  lemma StatesAreLawful(j: nat, k: nat)
    requires j <= 2 && k <= 1 && j + k <= 3
    ensures Inv(THREE_PHASES, After(j, k))
  {
    var c, s := THREE_PHASES, After(j, k);
    ConfigIsWellFormed();
    ListFacts();
    AfterFacts(j, k);
    assert InPhase(c, s) && Cum(c, s) == 4;
    assert Outstanding(c, s) == [2 - k, 2 - j, 0];
    WeighThree(Outstanding(c, s));
    assert PacksVest(c, s) && Backed(c, s) && Covered(c, s);
    assert Capped(c, s) && Indexed(c, s);
  }

  lemma StakerIsPristine()
    ensures Pristine(THREE_PHASES, After(0, 0), ACCOUNT)
  {
    var c, s := THREE_PHASES, After(0, 0);
    ListFacts();
    AfterFacts(0, 0);
    WeighThree(Held(c, s, ACCOUNT));
    assert Held(c, s, ACCOUNT) == [2, 2, 0];
    assert ShareAt(c, s, ACCOUNT, 1) && ShareAt(c, s, ACCOUNT, 2) && ShareAt(c, s, ACCOUNT, 3);
  }

  /** One IOU of phase `p` goes through and takes one free share. */
  lemma OnePiece(s: State, t: State, p: nat)
    requires (p == 2 && exists j :: 0 <= j < 2 && s == After(j, 0) && t == After(j + 1, 0))
             || (p == 1 && s == After(2, 0) && t == After(2, 1))
    ensures InPhase(THREE_PHASES, s) && RedeemAccepted(THREE_PHASES, s, ACCOUNT, THREE_PHASES.At(p).iou, 1)
    ensures !LeavesUneven(THREE_PHASES, s, ACCOUNT, p, 1) && RedeemedFor(THREE_PHASES, s, t, ACCOUNT, p, 1, true)
  {
    var c := THREE_PHASES;
    ConfigIsWellFormed();
    ListFacts();
    assert LockedPart(c, p, 2, 1) == 0;
    assert RedeemTake(c, s, ACCOUNT, p, 1) == (1, 0);
    assert SplitsEvenly(1, 1);
    assert ListsShrink(c, s, t, ACCOUNT, p, 0);
    assert PacksVest(c, t);
    hide ListsShrink, PacksVest, PhaseTotal, RedeemTake;
    PieceBooks(s, t, p);
    hide RedeemBalances;
  }

  lemma PieceBooks(s: State, t: State, p: nat)
    requires (p == 2 && exists j :: 0 <= j < 2 && s == After(j, 0) && t == After(j + 1, 0))
             || (p == 1 && s == After(2, 0) && t == After(2, 1))
    ensures RedeemBalances(THREE_PHASES, s, t, ACCOUNT, THREE_PHASES.At(p).iou, 1, 1, true)
  {
    if p == 2 {
      var j :| 0 <= j < 2 && s == After(j, 0) && t == After(j + 1, 0);
      SecondBooks(j);
    } else {
      FirstBooks();
    }
  }

  lemma SecondBooks(j: nat)
    requires j < 2
    ensures RedeemBalances(THREE_PHASES, After(j, 0), After(j + 1, 0), ACCOUNT, SECOND, 1, 1, true)
  {
  }

  lemma FirstBooks()
    ensures RedeemBalances(THREE_PHASES, After(2, 0), After(2, 1), ACCOUNT, FIRST, 1, 1, true)
  {
  }

  /** From then on neither both IOUs of the first phase go through, nor, after one of them, the other. */
  lemma NothingGoes()
    ensures InPhase(THREE_PHASES, After(2, 0)) && !RedeemAccepted(THREE_PHASES, After(2, 0), ACCOUNT, FIRST, 2)
    ensures InPhase(THREE_PHASES, After(2, 1)) && !RedeemAccepted(THREE_PHASES, After(2, 1), ACCOUNT, FIRST, 1)
  {
    ConfigIsWellFormed();
    ListFacts();
    assert LockedPart(THREE_PHASES, 1, 2, 2) == 0 && LockedPart(THREE_PHASES, 1, 2, 1) == 0;
  }

  /** And no redemption whatever gets the account out, although its shares still cover its IOUs. */
  lemma IsClosed()
    ensures Closed(THREE_PHASES, After(2, 0), ACCOUNT) && Surplus(THREE_PHASES, After(2, 0), ACCOUNT) == 0
  {
    var c, s := THREE_PHASES, After(2, 0);
    ListFacts();
    AfterFacts(2, 0);
    WeighThree(Held(c, s, ACCOUNT));
    assert Held(c, s, ACCOUNT) == [2, 0, 0];
    WeighThree(Missing(c, s, ACCOUNT));
    NeedsTwo();
  }

  lemma NeedsTwo()
    ensures Missing(THREE_PHASES, After(2, 0), ACCOUNT) == [2, 0, 0]
  {
    var c, s := THREE_PHASES, After(2, 0);
    ListFacts();
    assert MissingFor(c, s, ACCOUNT, 1) == 2 && MissingFor(c, s, ACCOUNT, 2) == 0 && MissingFor(c, s, ACCOUNT, 3) == 0;
  }

  /** The whole run. */
  lemma SingleRedemptionsCloseTheWay()
    ensures THREE_PHASES.WellFormed() && Pristine(THREE_PHASES, After(0, 0), ACCOUNT)
    ensures forall j :: 0 <= j <= 2 ==> Inv(THREE_PHASES, After(j, 0))
    ensures forall j :: 0 <= j < 2 ==>
      && RedeemAccepted(THREE_PHASES, After(j, 0), ACCOUNT, SECOND, 1)
      && !LeavesUneven(THREE_PHASES, After(j, 0), ACCOUNT, 2, 1)
      && RedeemedFor(THREE_PHASES, After(j, 0), After(j + 1, 0), ACCOUNT, 2, 1, true)
    ensures !RedeemAccepted(THREE_PHASES, After(2, 0), ACCOUNT, FIRST, 2) && Closed(THREE_PHASES, After(2, 0), ACCOUNT)
    ensures RedeemAccepted(THREE_PHASES, After(2, 0), ACCOUNT, FIRST, 1)
    ensures RedeemedFor(THREE_PHASES, After(2, 0), After(2, 1), ACCOUNT, 1, 1, true)
    ensures !RedeemAccepted(THREE_PHASES, After(2, 1), ACCOUNT, FIRST, 1)
  {
    hide Inv, RedeemedFor, LeavesUneven, RedeemAccepted, Pristine, Closed;
    ConfigIsWellFormed();
    StakerIsPristine();
    forall j | 0 <= j <= 2 ensures Inv(THREE_PHASES, After(j, 0)) { StatesAreLawful(j, 0); }
    forall j | 0 <= j < 2
      ensures InPhase(THREE_PHASES, After(j, 0)) && RedeemAccepted(THREE_PHASES, After(j, 0), ACCOUNT, SECOND, 1)
      ensures !LeavesUneven(THREE_PHASES, After(j, 0), ACCOUNT, 2, 1)
      ensures RedeemedFor(THREE_PHASES, After(j, 0), After(j + 1, 0), ACCOUNT, 2, 1, true)
    {
      OnePiece(After(j, 0), After(j + 1, 0), 2);
    }
    OnePiece(After(2, 0), After(2, 1), 1);
    NothingGoes();
    IsClosed();
  }

  // ---------------------------------------------------------------- how the account got there

  /** Two stakes lead from genesis to the first of these states. */
  lemma StakesLeadThere()
    ensures Inv(THREE_PHASES, GENESIS) && StakePaid(THREE_PHASES, GENESIS, BETWEEN, ACCOUNT, 2)
    ensures StakePaid(THREE_PHASES, BETWEEN, After(0, 0), ACCOUNT, 2)
  {
    FirstStake();
    SecondStake();
    GenesisIsLawful();
  }

  lemma GenesisIsLawful()
    ensures Inv(THREE_PHASES, GENESIS)
  {
    var c, g := THREE_PHASES, GENESIS;
    ConfigIsWellFormed();
    assert Cum(c, g) == 0;
    WeighThree(Outstanding(c, g));
    WeighThree(c.Overlaps(0, 0));
    assert Outstanding(c, g) == [0, 0, 0];
    assert g.Totals() == map[];
    assert Capped(c, g) && Backed(c, g) && Covered(c, g) && Indexed(c, g) && PacksVest(c, g);
  }

  lemma FirstStake()
    ensures StakePaid(THREE_PHASES, GENESIS, BETWEEN, ACCOUNT, 2)
  {
    var c, g, s := THREE_PHASES, GENESIS, BETWEEN;
    ConfigIsWellFormed();
    assert Cum(c, g) == 0 && Cum(c, s) == 2;
    FirstEntitles();
    FirstVests();
    FirstIous();
    hide EntitledTo, VestingKept, IousSold, Config.WellFormed, Config.Shares, Config.Overlap;
    FirstPaid();
  }

  lemma FirstPaid()
    ensures var c, g, s := THREE_PHASES, GENESIS, BETWEEN;
            && (forall u :: Bal(s.free, c.collected, u) == Bal(g.free, c.collected, u)
                  - (if u == ACCOUNT then 2 else 0) + (if u == c.collection then 2 else 0))
            && s.Issued(c.collected) == g.Issued(c.collected) && InPhase(c, g) && InPhase(c, s) && PauseKept(g, s)
            && forall a :: a != c.share && a != c.collected && !c.IsIou(a) ==>
                 s.Issued(a) == g.Issued(a) && forall u :: Bal(s.free, a, u) == Bal(g.free, a, u)
  {
    Finds();
  }

  lemma FirstIous()
    ensures IousSold(THREE_PHASES, GENESIS, BETWEEN, ACCOUNT, 0, 2)
  {
    var c := THREE_PHASES;
    ConfigIsWellFormed();
    assert c.Overlap(1, 0, 2) == 2 && c.Overlap(2, 0, 2) == 0 && c.Overlap(3, 0, 2) == 0;
  }

  lemma FirstEntitles()
    ensures EntitledTo(THREE_PHASES, GENESIS, BETWEEN, ACCOUNT, 2)
  {
    ListFacts();
    assert GENESIS.Totals() == map[];
    SumSet(map[], ACCOUNT, 0);
    assert map[][ACCOUNT := 0] == map[ACCOUNT := 0];
    assert BETWEEN.Totals() == map[ACCOUNT := 0];
    forall u
      ensures Entitled(THREE_PHASES, BETWEEN, u) == Entitled(THREE_PHASES, GENESIS, u) + if u == ACCOUNT then 2 else 0
    {
      assert u != ACCOUNT ==> BETWEEN.List(u) == [];
      assert GENESIS.List(u) == [];
    }
  }

  lemma FirstVests()
    ensures VestingKept(THREE_PHASES, GENESIS, BETWEEN, ACCOUNT, 0, 2)
  {
    var c, g, s := THREE_PHASES, GENESIS, BETWEEN;
    ListFacts();
    forall u, p, b: nat | 1 <= p <= c.N() && ShareOf(c, g, u, p, b)
      ensures ShareOf(c, s, u, p, b + if u == ACCOUNT then c.Overlap(p, 0, 2) else 0)
    {
      assert u != ACCOUNT ==> s.List(u) == [];
    }
  }

  lemma SecondStake()
    ensures StakePaid(THREE_PHASES, BETWEEN, After(0, 0), ACCOUNT, 2)
  {
    var c, g, s := THREE_PHASES, BETWEEN, After(0, 0);
    ConfigIsWellFormed();
    assert Cum(c, g) == 2 && Cum(c, s) == 4;
    SecondEntitles();
    SecondVests();
    SecondIous();
    hide EntitledTo, VestingKept, IousSold, Config.WellFormed, Config.Shares, Config.Overlap;
    SecondPaid();
    hide After;
  }

  lemma SecondPaid()
    ensures var c, g, s := THREE_PHASES, BETWEEN, After(0, 0);
            && (forall u :: Bal(s.free, c.collected, u) == Bal(g.free, c.collected, u)
                  - (if u == ACCOUNT then 2 else 0) + (if u == c.collection then 2 else 0))
            && s.Issued(c.collected) == g.Issued(c.collected) && InPhase(c, g) && InPhase(c, s) && PauseKept(g, s)
            && forall a :: a != c.share && a != c.collected && !c.IsIou(a) ==>
                 s.Issued(a) == g.Issued(a) && forall u :: Bal(s.free, a, u) == Bal(g.free, a, u)
  {
    Finds();
  }

  lemma SecondIous()
    ensures IousSold(THREE_PHASES, BETWEEN, After(0, 0), ACCOUNT, 2, 4)
  {
    var c := THREE_PHASES;
    ConfigIsWellFormed();
    assert c.Overlap(1, 2, 4) == 0 && c.Overlap(2, 2, 4) == 2 && c.Overlap(3, 2, 4) == 0;
  }

  lemma SecondEntitles()
    ensures EntitledTo(THREE_PHASES, BETWEEN, After(0, 0), ACCOUNT, 2)
  {
    ListFacts();
    AfterFacts(0, 0);
    SumSet(map[], ACCOUNT, 0);
    assert map[][ACCOUNT := 0] == map[ACCOUNT := 0];
    assert BETWEEN.Totals() == map[ACCOUNT := 0];
    forall u
      ensures Entitled(THREE_PHASES, After(0, 0), u) ==
              Entitled(THREE_PHASES, BETWEEN, u) + if u == ACCOUNT then 2 else 0
    {
      assert u != ACCOUNT ==> BETWEEN.List(u) == [] && After(0, 0).List(u) == [];
    }
  }

  lemma SecondVests()
    ensures VestingKept(THREE_PHASES, BETWEEN, After(0, 0), ACCOUNT, 2, 4)
  {
    var c, g, s := THREE_PHASES, BETWEEN, After(0, 0);
    ConfigIsWellFormed();
    ListFacts();
    forall u, p, b: nat | 1 <= p <= c.N() && ShareOf(c, g, u, p, b)
      ensures ShareOf(c, s, u, p, b + if u == ACCOUNT then c.Overlap(p, 2, 4) else 0)
    {
      assert u != ACCOUNT ==> s.List(u) == [];
      assert c.Overlap(2, 2, 4) == 2;
    }
  }

  // ---------------------------------------------------------------- a stake that panics

  /** In the same schedule a stake of a single unit panics: one share cannot be split into three payouts. */
  lemma SingleUnitPanics()
    ensures InPhase(THREE_PHASES, GENESIS) && StakePanics(THREE_PHASES, GENESIS, ACCOUNT, 1)
    ensures !StakeRefused(THREE_PHASES, GENESIS, 1)
  {
    var c, g := THREE_PHASES, GENESIS;
    ConfigIsWellFormed();
    assert Cum(c, g) == 0 && Reach(c, g, 1) == 1 && c.Overlap(1, 0, 1) == 1;
    assert !SplitsEvenly(1, 3);
    assert PhaseFails(c, g, ACCOUNT, 1, c.Overlap(1, Cum(c, g), Reach(c, g, 1)));
  }
}
