/** rio-saving: phased staking with vesting share packs, redemption, and the hooks
    through which the ledger tells it about mints, burns and transfers. */
module Saving {
  import opened Primitives
  import opened Books
  import opened Ledger
  import opened VestingPacks
  import opened PackLists
  import opened SavingModel
  import opened SavingLaws
  import opened RedeemLaws
  import opened DispatchLaws
  import opened RoundTrip
  import opened TransferLaws
  import opened BonusLaws
  import opened StakePanicLaws
  import opened SavingCalls
  import opened Pieces
  import opened Claims
  import opened WaysOut

  const DAY_IN_MILLI: nat := 86_400_000

  datatype BalanceChange = Positive(value: nat) | Negative(value: nat)

  class SavingModule {
    const c: Config
    const assets: Assets

    var phase: nat                               // current phase id, from 1
    var used: nat                                // quota used up in it
    var left: nat                                // number of phases left, this one included
    var unreleased: map<AccountId, seq<Pack>>
    var accountShares: map<AccountId, nat>
    var circulation: nat
    var paused: bool
    ghost var everPaused: bool
    var lastBonusTime: nat                       // in milliseconds

    ghost function View(): State
      reads this, assets
    {
      State(assets.free, assets.issuance, unreleased, phase, used, left, accountShares, circulation, paused, everPaused)
    }

    /** The ledger knows the module's assets, lets root mint and burn them, and no imbalance
        token is alive; the module changes none of this. */
    ghost predicate Setup()
      reads assets`symbols, assets`restricted, assets`permissions, assets`positive, assets`negative
    {
      && assets.Settled()
      && assets.Usable(c.share) && assets.Usable(c.collected)
      && assets.Usable(c.reservedAsset) && assets.Usable(c.profitAsset)
      && (forall i :: 0 <= i < c.N() ==> assets.Usable(c.phases[i].iou))
    }

    /** Genesis: the first phase, and no shares or IOUs issued yet. */
    constructor (c: Config, assets: Assets, now: nat)
      requires assets.Valid() && assets.Settled() && c.WellFormed()
      requires assets.Usable(c.share) && assets.Usable(c.collected)
      requires assets.Usable(c.reservedAsset) && assets.Usable(c.profitAsset)
      requires forall i :: 0 <= i < c.N() ==> assets.Usable(c.phases[i].iou)
      requires assets.Issued(c.share) == 0
      requires forall i :: 0 <= i < c.N() ==> assets.Issued(c.phases[i].iou) == 0
      ensures this.c == c && this.assets == assets
      ensures c.WellFormed() && Setup() && assets.Valid() && Inv(c, View()) && Cum(c, View()) == 0 && !paused
      ensures !everPaused
      ensures assets.free == old(assets.free) && lastBonusTime == now && circulation == 0
      ensures forall u :: u != c.collection ==>
        Pristine(c, View(), u) && Wealth(c, View(), u) == Bal(View().free, c.collected, u) && Surplus(c, View(), u) == 0
    {
      this.c, this.assets := c, assets;
      phase, used, left := 1, 0, c.N();
      unreleased, accountShares, circulation := map[], map[], 0;
      paused, everPaused, lastBonusTime := false, false, now;
      new;
      assert c.phases[0].quota > 0;
      GenesisLaws();
    }

    lemma GenesisLaws()
      requires c.WellFormed() && Setup() && assets.Valid() && phase == 1 && used == 0 && left == c.N()
      requires unreleased == map[]
      requires accountShares == map[] && circulation == 0 && !paused && !everPaused
      requires assets.Issued(c.share) == 0
      requires forall i :: 0 <= i < c.N() ==> assets.Issued(c.phases[i].iou) == 0
      ensures Inv(c, View()) && Cum(c, View()) == 0
      ensures forall u :: u != c.collection ==>
        Pristine(c, View(), u) && Wealth(c, View(), u) == Bal(View().free, c.collected, u) && Surplus(c, View(), u) == 0
    {
      var s := View();
      forall u | u != c.collection
        ensures Pristine(c, s, u) && Wealth(c, s, u) == Bal(s.free, c.collected, u) && Surplus(c, s, u) == 0
      {
        assets.Bounded(c.share, u);
        forall p | 1 <= p <= c.N() ensures Bal(s.free, c.At(p).iou, u) == 0 { assets.Bounded(c.At(p).iou, u); }
        EmptyIsPristine(c, s, u);
      }
      forall u ensures Bal(s.free, c.share, u) == 0 { assets.Bounded(c.share, u); }
      forall i | 0 <= i < c.N() ensures Outstanding(c, s)[i] == 0 { assets.Bounded(c.phases[i].iou, c.collection); }
      WeighZero(c, Outstanding(c, s), c.N());
      forall p | 1 <= p <= c.N() ensures c.Overlap(p, 0, 0) == 0 { }
      WeighZero(c, c.Overlaps(0, 0), c.N());
      assert s.Totals() == map[];
      assert c.phases[0].quota > 0;
    }

    // ------------------------------------------------------------ the ledger's mint, with its hook

    method Pause()
      modifies this`paused, this`everPaused
      ensures paused && everPaused
    {
      paused, everPaused := true, true;
    }

    /** on_asset_mint: the share index follows shares minted to anybody but the collection account. */
    method OnAssetMint(a: AssetId, to: AccountId, amount: nat)
      modifies this`accountShares, this`circulation, this`paused, this`everPaused
      ensures a != c.share || to == c.collection ==>
        accountShares == old(accountShares) && circulation == old(circulation)
        && paused == old(paused) && everPaused == old(everPaused)
      ensures a == c.share && to != c.collection ==>
        if Get(old(accountShares), to) + amount <= MAX_BALANCE && old(circulation) + amount <= MAX_BALANCE then
          && accountShares == With(old(accountShares), to, Get(old(accountShares), to) + amount)
          && circulation == old(circulation) + amount && paused == old(paused) && everPaused == old(everPaused)
        else paused && everPaused
    {
      if a == c.share && to != c.collection {
        if Get(accountShares, to) + amount > MAX_BALANCE {
          Pause();
        } else {
          accountShares := With(accountShares, to, Get(accountShares, to) + amount);
        }
        if circulation + amount > MAX_BALANCE {
          Pause();
        } else {
          circulation := circulation + amount;
        }
      }
    }

    method Mint(a: AssetId, to: AccountId, amount: nat) returns (r: Outcome)
      requires assets.Valid() && assets.Settled() && assets.Usable(a)
      modifies this`accountShares, this`circulation, this`paused, this`everPaused, assets`free, assets`issuance
      ensures assets.Valid()
      ensures r.Done? <==> old(assets.Issued(a)) + amount <= MAX_BALANCE
      ensures !r.Done? ==> r.Failed? && View() == old(View())
      ensures r.Done? ==> AssetMinted(old(View()), View(), a, to, amount)
      ensures a != c.share || to == c.collection ==> SameIndex(old(View()), View())
      ensures r.Done? && a == c.share && to != c.collection ==>
        if Get(old(accountShares), to) + amount <= MAX_BALANCE && old(circulation) + amount <= MAX_BALANCE then
          && accountShares == With(old(accountShares), to, Get(old(accountShares), to) + amount)
          && circulation == old(circulation) + amount && paused == old(paused) && everPaused == old(everPaused)
        else paused && everPaused
    {
      ghost var s := View();
      r := MintBooks(a, to, amount);
      ghost var m := View();
      hide AssetMinted;
      if r.Done? {
        OnAssetMint(a, to, amount);
        StillMinted(s, m, View(), a, to, amount);
      }
    }

    method MintBooks(a: AssetId, to: AccountId, amount: nat) returns (r: Outcome)
      requires assets.Valid() && assets.Settled() && assets.Usable(a)
      modifies assets`free, assets`issuance
      ensures assets.Valid()
      ensures r.Done? <==> old(assets.Issued(a)) + amount <= MAX_BALANCE
      ensures !r.Done? ==> r.Failed? && View() == old(View())
      ensures r.Done? ==> AssetMinted(old(View()), View(), a, to, amount)
    {
      ghost var s := View();
      assets.Bounded(a, to);
      hide AssetMinted;
      r := assets.MintFree(a, assets.root, to, amount);
      if r.Done? { MintedLaw(s, View(), a, to, amount); }
    }

    // ------------------------------------------------------------ payouts

    /** Releases one payout of a pack and mints it to the owner. */
    method PayPack(p: Pack) returns (r: Outcome, p': Pack)
      requires Setup() && assets.Valid()
      requires p.asset == c.share && p.owner != c.collection && RoomFor(c, View(), p.Paid())
      modifies this`accountShares, this`circulation, this`paused, this`everPaused, assets`free, assets`issuance
      ensures assets.Valid() && r.Done? && p' == p.After()
      ensures SharesMinted(c, old(View()), View(), p.owner, p.Paid())
    {
      var pay := p.Release();
      p' := pay.0;
      r := Done;
      if pay.1.Some? {
        SumBoundsOne(accountShares, p.owner);
        SumSet(accountShares, p.owner, Get(accountShares, p.owner) + pay.1.value);
        r := Mint(p.asset, p.owner, pay.1.value);
      }
    }

    /** One payout for each pack of a list; packs with nothing left are dropped. */
    method PayList(u: AccountId, list: seq<Pack>) returns (r: Outcome, kept: seq<Pack>)
      requires Setup() && assets.Valid() && u != c.collection
      requires forall i :: 0 <= i < |list| ==> list[i].asset == c.share && list[i].owner == u
      requires RoomFor(c, View(), PaidOut(list))
      modifies this`accountShares, this`circulation, this`paused, this`everPaused, assets`free, assets`issuance
      ensures assets.Valid() && r.Done? && kept == Released(list)
      ensures SharesMinted(c, old(View()), View(), u, PaidOut(list))
    {
      hide SharesMinted, RoomFor;
      r, kept := Done, [];
      ghost var s := View();
      NothingMinted(c, s, u);
      var i := 0;
      assert list[..0] == [];
      while i < |list|
        invariant i <= |list| && r.Done? && assets.Valid()
        invariant kept == Released(list[..i])
        invariant SharesMinted(c, s, View(), u, PaidOut(list[..i]))
      {
        ghost var m := View();
        PaidOutPrefix(list, i);
        RoomAfterMint(c, s, m, u, PaidOut(list[..i]), list[i].Paid(), PaidOut(list));
        hide PaidOut, Released;
        var p;
        r, p := PayPack(list[i]);
        MintsAddUp(c, s, m, View(), u, PaidOut(list[..i]), list[i].Paid());
        kept := if p.empty then kept else kept + [p];
        i := i + 1;
      }
      assert list[..i] == list;
    }

    /** One account's turn in a payout round. */
    method PayAccount(u: AccountId) returns (r: Outcome)
      requires Setup() && assets.Valid()
      requires u in unreleased && u != c.collection && ListVests(unreleased[u], c.share, u, c.N(), left)
      requires RoomFor(c, View(), View().Locked())
      modifies this`unreleased, this`accountShares, this`circulation, this`paused, this`everPaused
      modifies assets`free, assets`issuance
      ensures assets.Valid() && r.Done?
      ensures AccountPaid(c, old(View()), View(), u)
    {
      var list := unreleased[u];
      ghost var s := View();
      RoundStep(s, u, Released(list));
      ReleasedTotals(list, c.share, u, c.N(), left);
      var kept;
      r, kept := PayList(u, list);
      ghost var m := View();
      unreleased := unreleased - {u};
      if |kept| > 0 { unreleased := unreleased[u := kept]; }
      PaidAccount(c, s, m, View(), u);
    }

    /** Every account's packs pay one term; lists that run empty are removed. */
    method SharesReleaseByPhaseChange() returns (r: Outcome)
      requires Setup() && assets.Valid() && PacksVest(c, View())
      requires RoomFor(c, View(), View().Locked())
      modifies this`unreleased, this`accountShares, this`circulation, this`paused, this`everPaused
      modifies assets`free, assets`issuance
      ensures assets.Valid() && r.Done?
      ensures PayoutRound(c, old(View()), View())
    {
      hide RoundUnderWay, RoomFor, ListVests, PacksVest, PayoutRound, AccountPaid;
      r := Done;
      ghost var s := View();
      var todo := unreleased.Keys;
      RoundStarts(c, s);
      while todo != {}
        invariant assets.Valid() && r.Done? && RoundUnderWay(c, s, View(), todo)
        decreases todo
      {
        var u :| u in todo;
        ghost var m := View();
        NextInRound(c, s, m, todo, u);
        r := PayAccount(u);
        PaysOneMore(c, s, m, View(), todo, u);
        todo := todo - {u};
      }
      RoundEnds(c, s, View());
    }

    // ------------------------------------------------------------ packs in storage

    /** Gathers a phase's packs into one, with a change applied; the other phases' packs keep their order. */
    method AggregatePhaseUnreleased(list: seq<Pack>, p: nat, asset: AssetId, who: AccountId,
                                    change: Option<BalanceChange>)
      returns (r: Outcome, newList: seq<Pack>)
      ensures var total := PhaseTotal(list, asset, p);
              if change.Some? && change.value.Negative? && total < change.value.value then r.Failed?
              else if change.Some? && change.value.Negative? && total == change.value.value then
                r.Done? && newList == Others(list, asset, p)
              else
                var balance := if change.None? then total
                               else if change.value.Positive? then total + change.value.value
                               else total - change.value.value;
                var pack := Repacked(who, asset, p, balance, TermsOf(list, asset, p));
                if pack.None? then r.Aborted? else r.Done? && newList == Others(list, asset, p) + [pack.value]
    {
      newList := [];
      var total, termsTotal, termsLeft := 0, 0, 0;
      var i := 0;
      assert list[..0] == [];
      while i < |list|
        invariant i <= |list|
        invariant newList == Others(list[..i], asset, p) && total == PhaseTotal(list[..i], asset, p)
        invariant (termsTotal, termsLeft) == TermsOf(list[..i], asset, p)
      {
        assert list[..i + 1][..i] == list[..i];
        if list[i].asset != asset || list[i].phase != p {
          newList := newList + [list[i]];
        } else {
          assert newList == newList + [];
          total := total + list[i].Total();
          if termsTotal != list[i].major.termsTotal {
            termsTotal := list[i].major.termsTotal;
            termsLeft := list[i].TermsLeft();
          }
        }
        i := i + 1;
      }
      assert list[..i] == list;
      var balance := total;
      if change.Some? && change.value.Positive? { balance := total + change.value.value; }
      if change.Some? && change.value.Negative? {
        if total < change.value.value { return Failed("not enought locked balance"), []; }
        if total == change.value.value { return Done, newList; }
        balance := total - change.value.value;
      }
      if termsLeft == 0 { return Aborted, []; }
      var aggregated := CreateSharePack(who, asset, p, balance, termsLeft);
      if aggregated.None? { return Aborted, []; }
      var pack := aggregated.value;
      return Done, newList + [pack.(major := pack.major.(termsTotal := termsTotal))];
    }

    /** Puts a pack that still has payouts left into its owner's list. */
    method RegisterSharePack(p: Pack) returns (r: Outcome)
      modifies this`unreleased
      ensures RegisterEnds(old(View()), View(), p, r)
    {
      r := Done;
      if !p.empty {
        if p.owner !in unreleased {
          unreleased := unreleased[p.owner := [p]];
        } else {
          var l := unreleased[p.owner];
          unreleased := unreleased - {p.owner};
          var v;
          r, v := AggregatePhaseUnreleased(l + [p], p.phase, p.asset, p.owner, None);
          if !r.Done? { return Aborted; }
          unreleased := unreleased[p.owner := v];
        }
      }
    }

    // ------------------------------------------------------------ staking

    /** The vesting schedule of a stake of `x` in the current phase. */
    method CreateReleasePackForSaving(who: AccountId, x: nat) returns (r: Outcome, pack: Pack)
      requires c.WellFormed() && Core(c, View())
      requires 0 < x <= c.At(phase).quota - used
      ensures !r.Failed? && (r.Done? <==> SplitsEvenly(c.At(phase).exchange * x, left))
      ensures r.Done? ==> ForStake(c, View(), who, x, pack)
    {
      var shares := c.At(phase).exchange * x;
      FreshPackFits(c, View(), who, x, 0);
      assert shares <= MAX_BALANCE;           // the code's checked multiplication never fails
      SplitExact(who, c.share, phase, shares, left);
      var created := CreateSharePack(who, c.share, phase, shares, left);
      if created.None? { return Aborted, Pack(0, 0, 0, true, SharePackage(0, 0, 0), None); }
      CreatedPack(who, c.share, phase, shares, left);
      return Done, created.value;
    }

    /** IOUs and the pack's first payout, minted together. */
    method MintAssets(who: AccountId, x: nat, pack: Pack) returns (r: Outcome, pack': Pack)
      requires c.AssetsDistinct() && Setup() && assets.Valid() && 1 <= phase <= c.N() && who != c.collection
      requires pack.asset == c.share && pack.owner == who && pack.Tidy()
      requires assets.Issued(c.At(phase).iou) + x <= MAX_BALANCE && RoomFor(c, View(), pack.Paid())
      modifies this`accountShares, this`circulation, this`paused, this`everPaused, assets`free, assets`issuance
      ensures assets.Valid() && r.Done? && pack' == pack.After()
      ensures Credits(c, old(View()), View(), who, c.At(phase).iou, x, pack.Paid()) && PauseKept(old(View()), View())
      ensures !old(everPaused) && Tracked(c, old(View())) ==>
        Tracked(c, View()) && circulation == old(circulation) + pack.Paid()
    {
      ghost var s := View();
      var iou := c.At(phase).iou;
      c.IouFound(phase);
      r := Mint(iou, who, x);
      ghost var m := View();
      TrackedKept(c, s, m, iou, who, x);
      r, pack' := PayPack(pack);
      IouThenShares(c, s, m, View(), who, iou, x, pack.Paid());
    }

    /** Mints the IOUs and the first payout, and registers the pack with the payouts still to come. */
    method MintAndRegister(who: AccountId, x: nat, pack: Pack) returns (r: Outcome)
      requires c.AssetsDistinct() && Setup() && assets.Valid()
      requires InPhase(c, View()) && PacksVest(c, View()) && who != c.collection && Fresh(c, View(), pack, who)
      requires assets.Issued(c.At(phase).iou) + x <= MAX_BALANCE && RoomFor(c, View(), pack.Paid())
      modifies this`unreleased, this`accountShares, this`circulation, this`paused, this`everPaused
      modifies assets`free, assets`issuance
      ensures assets.Valid() && !r.Failed? && (r.Aborted? <==> Uneven(c, old(View()), pack, who))
      ensures r.Done? ==> SoldInPhase(c, old(View()), View(), who, x, pack.Total())
    {
      ghost var s := View();
      var pack';
      r, pack' := MintAssets(who, x, pack);
      ghost var m := View();
      r := RegisterSharePack(pack');
      SaleLaw(c, s, m, View(), who, x, pack, r);
    }

    /** Sells `x` units of the current phase to `who`: IOUs and the first payout now, the
        other payouts into storage. */
    method StakeInPhase(who: AccountId, x: nat) returns (r: Outcome)
      requires c.WellFormed() && Setup() && assets.Valid() && Core(c, View())
      requires who != c.collection && 0 < x <= c.At(phase).quota - used
      modifies this`unreleased, this`accountShares, this`circulation, this`paused, this`everPaused
      modifies assets`free, assets`issuance
      ensures assets.Valid() && !r.Failed? && (r.Aborted? <==> SplitFails(c, old(View()), who, x))
      ensures r.Done? ==> SoldInPhase(c, old(View()), View(), who, x, c.At(phase).exchange * x)
    {
      ghost var s := View();
      var pack;
      r, pack := CreateReleasePackForSaving(who, x);
      if !r.Done? { return; }
      FreshIsFresh(c, s, who, x, pack);
      r := MintAndRegister(who, x, pack);
      FreshFails(c, s, who, x, pack);
    }

    /** Pays a term to everybody and opens the next phase, or closes the last one. */
    method ShiftNextPhase() returns (r: Outcome, shifted: bool, ghost mid: State)
      requires Setup() && assets.Valid() && InPhase(c, View()) && PacksVest(c, View())
      requires RoomFor(c, View(), View().Locked())
      modifies this`phase, this`used, this`left
      modifies this`unreleased, this`accountShares, this`circulation, this`paused, this`everPaused
      modifies assets`free, assets`issuance
      ensures assets.Valid() && r.Done? && shifted == (old(phase) < c.N())
      ensures PayoutRound(c, old(View()), mid) && SameBooks(mid, View())
      ensures if shifted then phase == old(phase) + 1 && used == 0 && left == old(left) - 1
              else phase == old(phase) && used == c.At(phase).quota && left == old(left)
    {
      r := SharesReleaseByPhaseChange();
      mid := View();
      if phase + 1 <= c.N() {
        used := 0;
        phase := phase + 1;
        if left > 0 { left := left - 1; }
        shifted := true;
      } else {
        used := c.At(phase).quota;
        shifted := false;
      }
    }

    /** Sells `x` units of the current phase and books the quota; a full phase ends. */
    method StakeAndBook(who: AccountId, x: nat) returns (r: Outcome, shifted: bool)
      requires c.WellFormed() && Setup() && assets.Valid() && Core(c, View())
      requires who != c.collection && 0 < x <= c.At(phase).quota - used
      modifies this`phase, this`used, this`left
      modifies this`unreleased, this`accountShares, this`circulation, this`paused, this`everPaused
      modifies assets`free, assets`issuance
      ensures assets.Valid() && !r.Failed? && (r.Aborted? <==> SplitFails(c, old(View()), who, x))
      ensures r.Done? ==> StakeDone(c, old(View()), View(), who, x) && SoldAndBooked(c, old(View()), View(), who, x)
      ensures r.Done? ==> shifted == (old(used) + x == c.At(old(phase)).quota && old(phase) < c.N())
      ensures shifted ==> r.Done? && phase == old(phase) + 1 && used == 0 && NothingLocked(c, View())
    {
      hide Core, SoldInPhase, PayoutRound, RoomFor, PacksVest, StakedTo, SplitFails, NothingLocked;
      hide SoldAndBooked, SoldByPhases, PaysFirst;
      shifted := false;
      ghost var s := View();
      assert InPhase(c, s) by { CoreParts(c, s); }
      var willBe := used + x;
      r := StakeInPhase(who, x);
      if !r.Done? { return; }
      ghost var m, mid := View(), View();
      RoomAfterSale(c, s, m, who, x);
      if willBe == c.At(phase).quota {
        r, shifted, mid := ShiftNextPhase();
      } else {
        used := willBe;
      }
      if shifted { RoundOpens(c, m, mid, View()); }
      PhaseStaked(c, s, m, mid, View(), who, x);
    }

    /** The current phase's part of a stake. */
    method StakeHere(who: AccountId, balance: nat) returns (r: Outcome, iou: nat, shifted: bool)
      requires c.WellFormed() && Setup() && assets.Valid() && Core(c, View()) && who != c.collection
      modifies this`phase, this`used, this`left
      modifies this`unreleased, this`accountShares, this`circulation, this`paused, this`everPaused
      modifies assets`free, assets`issuance
      ensures assets.Valid()
      ensures r.Failed? <==> StakeRefused(c, old(View()), balance)
      ensures r.Failed? ==> View() == old(View())
      ensures r.Aborted? <==> HereFails(c, old(View()), who, balance)
      ensures r.Done? ==>
        StakeDone(c, old(View()), View(), who, iou) && HereDone(c, old(View()), View(), balance, iou, shifted)
        && SoldAndBooked(c, old(View()), View(), who, iou)
      ensures r.Done? ==> HereTook(c, old(View()), View(), balance, iou, shifted)
      ensures shifted ==> r.Done?
    {
      iou, shifted := 0, false;
      if balance == 0 { return Failed("saving can't be zero"), 0, false; }
      ghost var s := View();
      TakesWhatFits(c, s);
      hide Core, StakedTo, SplitFails, NothingLocked, StakeDone, SoldAndBooked, HereDone, HereTook, Setup, Assets.Valid;
      hide Config.WellFormed;
      var quota := c.At(phase).quota;
      if used + balance > MAX_BALANCE { return Aborted, 0, false; }     // "quota overflow"
      iou := if used + balance <= quota then balance else quota - used;
      if iou == 0 { return Failed("saving balance must not be zero"), 0, false; }
      r, shifted := StakeAndBook(who, iou);
      if !r.Done? { return; }
      ghost var t := View();
      HereStaked(c, s, t, who, balance, iou, shifted);
    }

    /** Stakes `balance`, as far as the remaining phases take it.  A sale that fills a phase
        moves on to the next and stakes the rest there. */
    method CreateStaking(who: AccountId, balance: nat) returns (r: Outcome, staked: nat)
      requires c.WellFormed() && Setup() && assets.Valid() && Core(c, View()) && who != c.collection
      modifies this`phase, this`used, this`left
      modifies this`unreleased, this`accountShares, this`circulation, this`paused, this`everPaused
      modifies assets`free, assets`issuance
      ensures assets.Valid()
      ensures r.Failed? <==> StakeRefused(c, old(View()), balance)
      ensures r.Failed? ==> View() == old(View())
      ensures r.Aborted? <==> StakePanics(c, old(View()), who, balance)
      ensures r.Done? ==> staked == Fitting(c, old(View()), balance) && 0 < staked <= balance
      ensures r.Done? ==> StakeDone(c, old(View()), View(), who, staked)
      decreases c.N() - phase
    {
      hide StakeDone, SoldAndBooked, Core, Fitting, StakeRefused, HereDone, HereTook, HereFails, StakePanics;
      ghost var s := View();
      var shifted;
      r, staked, shifted := StakeHere(who, balance);
      CoreParts(c, s);
      HereEnds(c, s, View(), who, balance, staked, shifted, r);
      if shifted && balance - staked > 0 {
        ghost var t := View();
        StakePosition(c, s, t, who, staked);
        var iou := staked;
        var more;
        r, more := CreateStaking(who, balance - iou);
        staked := iou + more;
        if r.Done? { StakesAddUp(c, s, t, View(), who, balance, iou, more); }
      }
    }

    // ------------------------------------------------------------ the ledger's burn and transfer

    /** on_asset_burn: the share index follows shares burned from anybody but the collection account. */
    method OnAssetBurn(a: AssetId, from: AccountId, amount: nat)
      modifies this`accountShares, this`circulation, this`paused, this`everPaused
      ensures old(paused) || a != c.share || from == c.collection ==>
        accountShares == old(accountShares) && circulation == old(circulation)
        && paused == old(paused) && everPaused == old(everPaused)
      ensures !old(paused) && a == c.share && from != c.collection ==>
        if amount <= Get(old(accountShares), from) && amount <= old(circulation) then
          && accountShares == With(old(accountShares), from, Get(old(accountShares), from) - amount)
          && circulation == old(circulation) - amount && paused == old(paused) && everPaused == old(everPaused)
        else paused && everPaused
    {
      if paused { return; }
      if a == c.share && from != c.collection {
        if Get(accountShares, from) < amount {
          Pause();
        } else {
          accountShares := With(accountShares, from, Get(accountShares, from) - amount);
        }
        if circulation < amount {
          Pause();
        } else {
          circulation := circulation - amount;
        }
      }
    }

    method Burn(a: AssetId, from: AccountId, amount: nat) returns (r: Outcome)
      requires assets.Valid() && assets.Settled() && assets.Usable(a)
      requires a != c.share || from == c.collection
      modifies this`accountShares, this`circulation, this`paused, this`everPaused, assets`free, assets`issuance
      ensures assets.Valid() && !r.Aborted? && SameIndex(old(View()), View())
      ensures r.Done? <==> amount <= old(assets.Free(a, from))
      ensures r.Done? ==> AssetBurned(old(View()), View(), a, from, amount)
      ensures !r.Done? ==> View() == old(View())
    {
      assets.Bounded(a, from);
      r := assets.BurnFree(a, assets.root, from, amount);
      if r.Done? { OnAssetBurn(a, from, amount); }
    }

    method Move(a: AssetId, from: AccountId, to: AccountId, amount: nat) returns (r: Outcome)
      requires assets.Valid() && assets.Settled() && assets.Usable(a)
      modifies assets`free
      ensures assets.Valid() && !r.Aborted?
      ensures r.Done? <==> amount <= old(assets.Free(a, from))
      ensures r.Done? ==> AssetMoved(old(View()), View(), a, from, to, amount)
      ensures !r.Done? ==> assets.free == old(assets.free)
    {
      assert assets.SettledAt(a);
      r := assets.MakeTransfer(a, from, to, amount);
    }

    // ------------------------------------------------------------ redemption

    function RedeemCheck(who: AccountId, iou: AssetId, amount: nat): Outcome
      requires c.IsIou(iou) && left >= 1
      reads this`left, this`unreleased, assets`free
    {
      var list := if who in unreleased then unreleased[who] else [];
      CheckCanRedeem(c, left, assets.Free(c.share, who), list, c.PhaseOf(iou), amount)
    }

    /** The pockets after compensation, computed as the code does: each shortfall is moved to
        the other pocket. */
    method Compensate(free: nat, unreleased: nat, required: nat, locked: nat) returns (r: Outcome, take: (nat, nat))
      requires locked <= required && CheckPockets(free, unreleased, required, locked).Done?
      ensures r.Done? && take == Pockets(free, unreleased, required, locked)
      ensures take.0 <= free && take.1 <= unreleased && take.0 + take.1 == required
    {
      var freeToDeduct, lockedToDeduct := required - locked, locked;
      var lockedShort, freeShort := 0, 0;
      if unreleased < lockedToDeduct {
        lockedShort := lockedToDeduct - unreleased;
        lockedToDeduct := unreleased;
      }
      if freeToDeduct > 0 {
        assert free + unreleased >= required;         // "total balance doesn't match" cannot happen
        if free < freeToDeduct {
          freeShort := freeToDeduct - free;
          freeToDeduct := free;
        }
      }
      freeToDeduct := freeToDeduct + lockedShort;
      lockedToDeduct := lockedToDeduct + freeShort;
      assert freeToDeduct + lockedToDeduct == required;  // "in & out don't match" cannot happen
      return Done, (freeToDeduct, lockedToDeduct);
    }

    /** How much a redemption that passed the check takes out of each pocket. */
    method PlanRedeem(who: AccountId, iou: AssetId, amount: nat) returns (take: (nat, nat))
      requires InPhase(c, View()) && PacksVest(c, View()) && c.IsIou(iou) && RedeemCheck(who, iou, amount).Done?
      ensures take == RedeemTake(c, View(), who, c.PhaseOf(iou), amount)
      ensures take.0 <= assets.Free(c.share, who) && take.1 <= PhaseTotal(View().List(who), c.share, c.PhaseOf(iou))
      ensures take.0 + take.1 == amount * c.At(c.PhaseOf(iou)).exchange
    {
      var p := c.PhaseOf(iou);
      var required := amount * c.At(p).exchange;
      var list := if who in unreleased then unreleased[who] else [];
      assert ListVests(list, c.share, who, c.N(), left);
      TotalsAgree(list, c.share, who, p, c.N(), left);
      var r;
      r, take := Compensate(assets.Free(c.share, who), OwnedTotal(list, who, p), required,
          LockedPart(c, p, left, required));
    }

    /** Burns the shares that arrived in the collection account and pays the stake back. */
    method BurnAndPay(who: AccountId, amount: nat, burned: nat) returns (r: Outcome)
      requires c.AssetsDistinct() && Setup() && assets.Valid() && who != c.collection
      requires burned <= assets.Free(c.share, c.collection) && amount <= assets.Free(c.collected, c.collection)
      modifies this`accountShares, this`circulation, this`paused, this`everPaused, assets`free, assets`issuance
      ensures assets.Valid() && r.Done? && BurntAndPaid(c, old(View()), View(), who, amount, burned)
    {
      ghost var s := View();
      hide BurntAndPaid, AssetMoved, AssetBurned;
      r := BurnShares(burned);
      ghost var m := View();
      BurnLeaves(c, s, m, burned);
      r := Move(c.collected, c.collection, who, amount);
      BurnsAndPays(c, s, m, View(), who, amount, burned);
    }

    method BurnShares(burned: nat) returns (r: Outcome)
      requires Setup() && assets.Valid() && burned <= assets.Free(c.share, c.collection)
      modifies this`accountShares, this`circulation, this`paused, this`everPaused, assets`free, assets`issuance
      ensures assets.Valid() && r.Done? && AssetBurned(old(View()), View(), c.share, c.collection, burned)
      ensures SameIndex(old(View()), View())
    {
      r := Done;
      if burned != 0 { r := Burn(c.share, c.collection, burned); }
    }

    /** `taken` out of the phase's locked shares; the rest is split anew. */
    method TakeLocked(list: seq<Pack>, who: AccountId, p: nat, taken: nat) returns (r: Outcome, out: seq<Pack>)
      requires ListVests(list, c.share, who, c.N(), left) && left >= 1 && taken <= PhaseTotal(list, c.share, p)
      requires PhaseTotal(list, c.share, p) + left <= MAX_BALANCE
      ensures !r.Failed?
      ensures r.Aborted? <==>
        left >= 2 && PhaseTotal(list, c.share, p) > taken
            && !SplitsEvenly(PhaseTotal(list, c.share, p) - taken, left - 1)
      ensures r.Done? ==>
        && ListVests(out, c.share, who, c.N(), left) && ListTotal(out) + taken == ListTotal(list)
        && forall q :: PhaseTotal(out, c.share, q) + (if q == p then taken else 0) == PhaseTotal(list, c.share, q)
    {
      hide ListVests, PhaseTotal, ListTotal, Others, Repacked, SplitsEvenly;
      r, out := AggregatePhaseUnreleased(list, p, c.share, who, Some(BalanceChange.Negative(taken)));
      AggregateTaken(c, list, who, p, left, taken, r, out);
    }

    /** Takes free shares to the collection account and locked ones out of the packs. */
    method TakeShares(who: AccountId, p: nat, take: (nat, nat)) returns (r: Outcome)
      requires Setup() && assets.Valid() && PacksVest(c, View()) && who != c.collection && left >= 1
      requires take.0 <= assets.Free(c.share, who) && take.1 <= PhaseTotal(View().List(who), c.share, p)
      requires PhaseTotal(View().List(who), c.share, p) + left <= MAX_BALANCE
      modifies this`unreleased, assets`free
      ensures assets.Valid() && !r.Failed?
      ensures r.Aborted? <==> UnevenRest(old(View()), PhaseTotal(old(View()).List(who), c.share, p), take.1)
      ensures r.Done? ==> SharesTaken(c, old(View()), View(), who, p, take)
    {
      hide PhaseTotal, ListTotal, SplitsEvenly, ListsShrink, SharesTaken, ListVests;
      ghost var s := View();
      TakenVests(s, who);
      var list := if who in unreleased then unreleased[who] else [];
      unreleased := unreleased - {who};
      hide PacksVest;
      r := Move(c.share, who, c.collection, take.0);
      ghost var m := View();
      var nl;
      r, nl := TakeLocked(list, who, p, take.1);
      if r.Done? {
        unreleased := unreleased[who := nl];
        BothTaken(s, m, View(), who, p, take, nl);
      }
    }

    lemma TakenVests(s: State, who: AccountId)
      requires PacksVest(c, s)
      ensures ListVests(s.List(who), c.share, who, c.N(), s.left)
    {
    }

    lemma BothTaken(s: State, m: State, t: State, who: AccountId, p: nat, take: (nat, nat), l: seq<Pack>)
      requires PacksVest(c, s) && who != c.collection && s.left >= 1
      requires m.unreleased == s.unreleased - {who} && SamePosition(s, m) && SameIndex(s, m) && m.issuance == s.issuance
      requires forall a, u :: Bal(m.free, a, u) == Bal(s.free, a, u)
                 - (if a == c.share && u == who then take.0 else 0)
                 + (if a == c.share && u == c.collection then take.0 else 0)
      requires SamePosition(m, t) && SameIndex(m, t) && t.free == m.free && t.issuance == m.issuance
      requires t.unreleased == m.unreleased[who := l]
      requires ListVests(l, c.share, who, c.N(), s.left) && ListTotal(l) + take.1 == ListTotal(s.List(who))
      requires forall q ::
        PhaseTotal(l, c.share, q) + (if q == p then take.1 else 0) == PhaseTotal(s.List(who), c.share, q)
      ensures SharesTaken(c, s, t, who, p, take)
    {
      hide PhaseTotal, ListTotal, ListsShrink, ListVests, PacksVest;
      ShrinkLaw(c, s, t, who, p, take.1, l);
    }

    /** Takes the shares of a redemption out of both pockets, burns them and pays the stake
        back.  To be called right after a passed check, with the IOUs already in the
        collection account.  It then never fails; it panics exactly when what stays locked
        cannot be split into the payouts left. */
    method MakeRedeem(who: AccountId, iou: AssetId, amount: nat) returns (r: Outcome)
      requires c.AssetsDistinct() && Setup() && assets.Valid() && InPhase(c, View()) && PacksVest(c, View())
      requires c.IsIou(iou) && who != c.collection && RedeemCheck(who, iou, amount).Done?
      requires amount <= assets.Free(c.collected, c.collection)
      requires View().Locked() + c.N() <= MAX_BALANCE
      modifies this`unreleased, this`accountShares, this`circulation, this`paused, this`everPaused, assets`free
      modifies assets`issuance
      ensures assets.Valid() && !r.Failed?
      ensures r.Aborted? <==> LeavesUneven(c, old(View()), who, c.PhaseOf(iou), amount)
      ensures r.Done? ==>
        Redeemed(c, old(View()), View(), who, c.PhaseOf(iou), amount,
                 RedeemTake(c, old(View()), who, c.PhaseOf(iou), amount))
    {
      ghost var s := View();
      var p := c.PhaseOf(iou);
      var take := PlanRedeem(who, iou, amount);
      TakenFits(c, s, who, p);
      r := TakeShares(who, p, take);
      if !r.Done? { return; }
      ghost var m := View();
      r := BurnAndPay(who, amount, take.0);
      RedeemsTaken(c, s, m, View(), who, p, amount, take);
    }

    // ------------------------------------------------------------ dispatchable: staking

    /** Mints the reserved asset that goes with a stake. */
    method CreateReserved(price: nat, amount: nat) returns (r: Outcome)
      requires c.AssetsDistinct() && Setup() && assets.Valid()
      modifies this`accountShares, this`circulation, this`paused, this`everPaused, assets`free, assets`issuance
      ensures assets.Valid()
      ensures r.Aborted? <==> !ReserveFits(price, amount)
      ensures !r.Aborted? ==> ReserveMinted(c, old(View()), View(), price, amount, r)
      ensures ReservedOnly(c, old(View()), View())
    {
      ReserveExact(price, amount);
      var x := SbtcToReserved(price, amount);
      if x.None? { return Aborted; }
      r := Mint(c.reservedAsset, c.reservedWallet, x.value);
    }

    /** Takes the stake of `who` once it was created. */
    method PayStake(who: AccountId, x: nat, ghost s: State) returns (r: Outcome)
      requires c.AssetsDistinct() && Setup() && assets.Valid() && who != c.collection
      requires Covered(c, s) && StakeDone(c, s, View(), who, x) && x <= Bal(View().free, c.collected, who)
      modifies assets`free
      ensures assets.Valid() && r.Done? && Inv(c, View()) && StakePaid(c, s, View(), who, x)
      ensures ReserveKept(c, s, View()) && SameShares(c, old(View()), View())
    {
      hide StakeDone, Covered, StakePaid, Inv;
      ghost var m := View();
      r := Move(c.collected, who, c.collection, x);
      PaymentKeepsInv(c, s, m, View(), who, x);
    }

    /** A stake that passed the first checks: created, paid for, and matched by the reserve. */
    method StakeAndPay(who: AccountId, amount: nat, price: nat) returns (r: Outcome, staked: nat)
      requires c.WellFormed() && c.AssetsDistinct() && Setup() && assets.Valid() && who != c.collection
      requires Core(c, View()) && InPhase(c, View()) && Covered(c, View())
      requires amount <= Bal(View().free, c.collected, who)
      modifies this`phase, this`used, this`left
      modifies this`unreleased, this`accountShares, this`circulation, this`paused, this`everPaused
      modifies assets`free, assets`issuance
      ensures !r.Aborted? ==> assets.Valid()
      ensures !r.Aborted? ==> if StakeRefused(c, old(View()), amount) then r.Failed? && staked == 0
          && View() == old(View())
                              else staked > 0 && staked == Fitting(c, old(View()), amount)
                                   && Inv(c, View()) && StakePaid(c, old(View()), View(), who, staked)
                                   && ReserveMinted(c, old(View()), View(), price, staked, r)
                                   && SoldTo(c, old(View()), View(), who, staked)
      ensures r.Aborted? <==> StakeOrReservePanics(c, old(View()), who, amount, price)
    {
      hide *;
      ghost var s := View();
      r, staked := CreateStaking(who, amount);
      StakingPanicsWhen(c, s, who, amount, price, r, staked);
      if r.Failed? { staked := 0; }
      if !r.Done? { return; }
      ghost var sold := View();
      StakeLeavesCollected(c, s, sold, who, staked);
      r := PayStake(who, staked, s);
      ghost var m := View();
      r := CreateReserved(price, staked);
      StakingEnds(c, s, m, View(), who, staked);
      ReserveFollows(c, s, m, View(), price, staked, r);
      SoldInTheEnd(c, s, sold, m, View(), who, staked);
    }

    /** `staking` and, with root naming the staker, `sudo_staking`.  `staked` says how much
        of `amount` was taken, 0 if the call was refused. */
    method Staking(who: AccountId, asset: AssetId, amount: nat, price: nat) returns (r: Outcome, staked: nat)
      requires c.WellFormed() && Setup() && assets.Valid() && Inv(c, View()) && who != c.collection
      modifies this`phase, this`used, this`left
      modifies this`unreleased, this`accountShares, this`circulation, this`paused, this`everPaused
      modifies assets`free, assets`issuance
      ensures !r.Aborted? ==> assets.Valid() && Inv(c, View())
      ensures !r.Aborted? ==>
        staked == if StakingAccepted(c, old(View()), who, asset, amount) then Fitting(c, old(View()), amount) else 0
      ensures !r.Aborted? && staked == 0 ==> r.Failed? && View() == old(View())
      ensures !r.Aborted? && staked > 0 ==> StakePaid(c, old(View()), View(), who, staked)
      // phase by phase: the first payout at once, the rest locked, and a round of payouts for each phase that fills
      ensures !r.Aborted? && staked > 0 ==> SoldTo(c, old(View()), View(), who, staked)
      // the reserve that goes with it: 65 percent of its value at the price, if there is room to mint it
      ensures !r.Aborted? && staked > 0 ==> ReserveMinted(c, old(View()), View(), price, staked, r)
      ensures r.Done? ==> staked > 0
      ensures r.Aborted? <==> StakingPanics(c, old(View()), who, asset, amount, price)
    {
      assert InPhase(c, View());
      hide Core, Covered, StakePaid, Fitting, StakeRefused, StakeOrReservePanics, ReserveMinted, SoldTo;
      if paused { return Failed("module is paused"), 0; }
      if asset != c.collected { return Failed("can't collect this asset"), 0; }
      if assets.Free(asset, who) < amount { return Failed("insufficient balance"), 0; }
      r, staked := StakeAndPay(who, amount, price);
    }

    // ------------------------------------------------------------ dispatchable: redemption

    /** The collection account can always pay for IOUs somebody holds. */
    lemma CollectionCanPay(who: AccountId, p: nat, amount: nat)
      requires c.WellFormed() && Setup() && assets.Valid() && Covered(c, View()) && who != c.collection
      requires 1 <= p <= c.N() && amount <= assets.Free(c.At(p).iou, who)
      ensures amount <= assets.Free(c.collected, c.collection)
      ensures amount <= assets.Issued(c.At(p).iou)
    {
      var outs := Outstanding(c, View());
      forall i | 0 <= i < c.N() ensures 0 <= outs[i] { assets.Bounded(c.phases[i].iou, c.collection); }
      var iou := c.phases[p - 1].iou;
      assets.Bounded(iou, who);
      TwoBalsInTotal(assets.free, iou, who, c.collection);
      SumAtLeastOne(outs, p, c.N());
    }

    /** The part of a redemption that follows the transfer of the IOUs. */
    method RedeemReturned(who: AccountId, iou: AssetId, amount: nat, ghost s: State) returns (r: Outcome)
      requires c.WellFormed() && Setup() && assets.Valid() && who != c.collection
      requires Inv(c, s) && c.IsIou(iou) && IouReturned(c, s, View(), who, c.PhaseOf(iou), amount)
      requires RedeemCheck(who, iou, amount).Done? && amount <= assets.Free(c.collected, c.collection)
      requires amount <= s.Issued(iou)
      modifies this`unreleased, this`accountShares, this`circulation, this`paused, this`everPaused, assets`free
      modifies assets`issuance
      ensures assets.Valid() && !r.Failed?
      ensures r.Aborted? <==> LeavesUneven(c, s, who, c.PhaseOf(iou), amount)
      ensures r.Done? ==> Inv(c, View()) && RedeemedFor(c, s, View(), who, c.PhaseOf(iou), amount, false)
    {
      ghost var m, p := View(), c.PhaseOf(iou);
      RedeemFits(c, s, p, amount);
      LockedSame(s, m);
      assert InPhase(c, m) && PacksVest(c, m) && c.AssetsDistinct();
      hide PacksVest, Core, Covered, Redeemed, RedeemedFor, IouReturned, LeavesUneven, RedeemTake, LockedPart;
      r := MakeRedeem(who, iou, amount);
      TakeSame(c, s, m, who, p, amount);
      if r.Done? { ReturnedRedeems(c, s, m, View(), who, p, amount); }
    }

    /** A redemption whose check passed: the IOUs go to the collection account and are redeemed. */
    method HandIn(who: AccountId, iou: AssetId, amount: nat) returns (r: Outcome)
      requires c.WellFormed() && Setup() && assets.Valid() && who != c.collection && Inv(c, View())
      requires c.IsIou(iou) && RedeemCheck(who, iou, amount).Done?
      modifies this`unreleased, this`accountShares, this`circulation, this`paused, this`everPaused, assets`free
      modifies assets`issuance
      ensures assets.Valid()
      ensures r.Failed? <==> old(assets.Free(iou, who)) < amount
      ensures r.Failed? ==> View() == old(View())
      ensures r.Aborted? <==>
        amount <= old(assets.Free(iou, who)) && LeavesUneven(c, old(View()), who, c.PhaseOf(iou), amount)
      ensures r.Done? ==> Inv(c, View()) && RedeemedFor(c, old(View()), View(), who, c.PhaseOf(iou), amount, false)
    {
      ghost var s, p := View(), c.PhaseOf(iou);
      assert assets.Usable(c.phases[p - 1].iou);
      if assets.Free(iou, who) >= amount { CollectionCanPay(who, p, amount); }
      c.IouFound(p);
      assert InPhase(c, s) && c.AssetsDistinct();
      hide Core, Covered, Inv, RedeemedFor, LeavesUneven, CheckCanRedeem, AssetMoved, IouReturned;
      r := Move(iou, who, c.collection, amount);
      if !r.Done? { return; }
      HandedIn(s, View(), who, iou, amount);
      r := RedeemReturned(who, iou, amount, s);
    }

    lemma HandedIn(s: State, m: State, who: AccountId, iou: AssetId, amount: nat)
      requires c.AssetsDistinct() && c.IsIou(iou) && who != c.collection
      requires AssetMoved(s, m, iou, who, c.collection, amount)
      ensures IouReturned(c, s, m, who, c.PhaseOf(iou), amount)
      ensures Bal(m.free, c.share, who) == Bal(s.free, c.share, who) && m.unreleased == s.unreleased && m.left == s.left
      ensures Bal(m.free, c.collected, c.collection) == Bal(s.free, c.collected, c.collection)
    {
    }

    /** The redeemed IOUs are burned. */
    method BurnReturned(who: AccountId, iou: AssetId, amount: nat, ghost s: State) returns (r: Outcome)
      requires c.AssetsDistinct() && Setup() && assets.Valid() && who != c.collection && Inv(c, View())
      requires c.IsIou(iou) && s.left >= 1 && RedeemedFor(c, s, View(), who, c.PhaseOf(iou), amount, false)
      modifies this`accountShares, this`circulation, this`paused, this`everPaused, assets`free, assets`issuance
      ensures assets.Valid() && r.Done? && Inv(c, View())
      ensures RedeemedFor(c, s, View(), who, c.PhaseOf(iou), amount, true)
    {
      ghost var m, p := View(), c.PhaseOf(iou);
      assert assets.Usable(c.phases[p - 1].iou);
      c.IouFound(p);
      hide Inv, RedeemedFor;
      ReturnedIsThere(c, s, m, who, p, amount);
      r := Burn(iou, c.collection, amount);
      BurnKeepsInv(c, m, View(), p, amount);
      BurnsReturned(c, s, m, View(), who, p, amount);
    }

    /** A redemption whose check passed, with the IOUs burned in the end. */
    method ReturnIous(who: AccountId, iou: AssetId, amount: nat) returns (r: Outcome)
      requires c.WellFormed() && Setup() && assets.Valid() && who != c.collection && Inv(c, View())
      requires c.IsIou(iou) && RedeemCheck(who, iou, amount).Done?
      modifies this`unreleased, this`accountShares, this`circulation, this`paused, this`everPaused, assets`free
      modifies assets`issuance
      ensures !r.Aborted? ==> assets.Valid() && Inv(c, View())
      ensures r.Failed? <==> old(assets.Free(iou, who)) < amount
      ensures r.Failed? ==> View() == old(View())
      ensures r.Aborted? <==>
        amount <= old(assets.Free(iou, who)) && LeavesUneven(c, old(View()), who, c.PhaseOf(iou), amount)
      ensures r.Done? ==> RedeemedFor(c, old(View()), View(), who, c.PhaseOf(iou), amount, true)
    {
      ghost var s := View();
      assert InPhase(c, s) && c.AssetsDistinct();
      hide Core, Covered, Inv, RedeemedFor, LeavesUneven, CheckCanRedeem;
      r := HandIn(who, iou, amount);
      if r.Done? { r := BurnReturned(who, iou, amount, s); }
    }

    /** `sudo_redeem`: root redeems for `who`; the reserve stays out of it. */
    method SudoRedeem(who: AccountId, iou: AssetId, amount: nat) returns (r: Outcome)
      requires c.WellFormed() && Setup() && assets.Valid() && who != c.collection && Inv(c, View())
      modifies this`unreleased, this`accountShares, this`circulation, this`paused, this`everPaused, assets`free
      modifies assets`issuance
      ensures !r.Aborted? ==> assets.Valid() && Inv(c, View())
      ensures r.Failed? ==> View() == old(View())
      ensures r.Done? <==>
        RedeemAccepted(c, old(View()), who, iou, amount) && !LeavesUneven(c, old(View()), who, c.PhaseOf(iou), amount)
      ensures r.Done? ==> RedeemedFor(c, old(View()), View(), who, c.PhaseOf(iou), amount, true)
    {
      assert InPhase(c, View());
      hide Core, Covered, Inv, RedeemedFor, LeavesUneven, CheckCanRedeem;
      if paused { return Failed("module is paused"); }
      if !c.IsIou(iou) { return Failed("no such contract assets"); }
      r := RedeemCheck(who, iou, amount);
      if !r.Done? { return; }
      r := ReturnIous(who, iou, amount);
    }

    method BurnReserved(x: nat) returns (r: Outcome)
      requires c.AssetsDistinct() && Setup() && assets.Valid() && Inv(c, View())
      requires x <= assets.Free(c.reservedAsset, c.reservedWallet)
      modifies this`accountShares, this`circulation, this`paused, this`everPaused, assets`free, assets`issuance
      ensures assets.Valid() && r.Done? && Inv(c, View()) && ReservedOnly(c, old(View()), View())
      ensures AssetBurned(old(View()), View(), c.reservedAsset, c.reservedWallet, x)
    {
      ghost var s := View();
      r := Burn(c.reservedAsset, c.reservedWallet, x);
      ReservedIsOutside(c, s, View());
      OutsideKeepsInv(c, s, View());
    }

    /** The reserve is burned first, whatever becomes of the IOUs. */
    method BurnThenReturn(who: AccountId, iou: AssetId, amount: nat, x: nat) returns (r: Outcome, ghost mid: State)
      requires c.WellFormed() && Setup() && assets.Valid() && who != c.collection && Inv(c, View())
      requires c.IsIou(iou) && RedeemCheck(who, iou, amount).Done?
      requires x <= assets.Free(c.reservedAsset, c.reservedWallet)
      modifies this`unreleased, this`accountShares, this`circulation, this`paused, this`everPaused, assets`free
      modifies assets`issuance
      ensures !r.Aborted? ==> assets.Valid() && Inv(c, View())
      ensures ReservedOnly(c, old(View()), mid) && AssetBurned(old(View()), mid, c.reservedAsset, c.reservedWallet, x)
      ensures r.Failed? ==> View() == mid
      ensures r.Failed? <==> Bal(old(View()).free, iou, who) < amount
      ensures r.Aborted? <==>
        amount <= Bal(old(View()).free, iou, who) && LeavesUneven(c, old(View()), who, c.PhaseOf(iou), amount)
      ensures r.Done? ==> RedeemedFor(c, mid, View(), who, c.PhaseOf(iou), amount, true)
    {
      ghost var s := View();
      assert InPhase(c, s) && c.AssetsDistinct();
      hide Core, Covered, Inv, RedeemedFor, LeavesUneven, CheckCanRedeem, ReservedOnly;
      r := BurnReserved(x);
      mid := View();
      ReserveBurned(c, s, mid, who, iou, amount);
      r := ReturnIous(who, iou, amount);
    }

    /** `redeem`: like `sudo_redeem`, but the reserve minted with the stake is burned first,
        and stays burned when the IOUs turn out to be missing. */
    method Redeem(who: AccountId, iou: AssetId, amount: nat, price: nat) returns (r: Outcome, ghost mid: State)
      requires c.WellFormed() && Setup() && assets.Valid() && who != c.collection && Inv(c, View())
      modifies this`unreleased, this`accountShares, this`circulation, this`paused, this`everPaused, assets`free
      modifies assets`issuance
      ensures !r.Aborted? ==> assets.Valid() && Inv(c, View())
      ensures ReservedOnly(c, old(View()), mid)
      ensures r.Failed? ==> View() == mid
      ensures r.Done? <==>
        && RedeemAccepted(c, old(View()), who, iou, amount)
        && !LeavesUneven(c, old(View()), who, c.PhaseOf(iou), amount)
        && ReserveFits(price, amount) && ReserveHeld(c, old(View()), price, amount)
      ensures r.Done? ==>
        ReserveTaken(c, old(View()), mid, price, amount)
        && RedeemedFor(c, mid, View(), who, c.PhaseOf(iou), amount, true)
      // a call that fails has burned the reserve if only the IOUs were missing
      ensures r.Failed? ==>
        if RedeemChecked(c, old(View()), who, iou, amount, price) then ReserveTaken(c, old(View()), mid, price, amount)
        else mid == old(View())
    {
      mid := View();
      assert InPhase(c, View());
      hide Core, Covered, Inv, RedeemedFor, LeavesUneven, CheckCanRedeem, AssetBurned, SbtcToReserved, ReserveFits;
      hide ReserveHeld, ReserveTaken, ReservedOnly, ReserveIs;
      ReserveExact(price, amount);
      if paused { return Failed("module is paused"), mid; }
      if !c.IsIou(iou) { return Failed("no such contract assets"), mid; }
      var reserve := SbtcToReserved(price, amount);
      if reserve.None? { return Aborted, mid; }
      HeldWhen(c, mid, price, amount, reserve.value);
      if assets.Free(c.reservedAsset, c.reservedWallet) < reserve.value {
        return Failed("reserved wallet is short"), mid;
      }
      r := RedeemCheck(who, iou, amount);
      if !r.Done? { return; }
      ghost var s := View();
      r, mid := BurnThenReturn(who, iou, amount, reserve.value);
      ReserveTakenIs(c, s, mid, price, amount, reserve.value);
    }

    // ------------------------------------------------------------ dispatchable: transfer, with its hooks

    method MoveAny(a: AssetId, from: AccountId, to: AccountId, amount: nat) returns (r: Outcome)
      requires assets.Valid() && assets.Settled()
      modifies assets`free
      ensures assets.Valid() && !r.Aborted?
      ensures r.Done? <==> a in assets.symbols && a !in assets.restricted && amount <= old(assets.Free(a, from))
      ensures r.Done? ==> AssetMoved(old(View()), View(), a, from, to, amount)
      ensures !r.Done? ==> assets.free == old(assets.free)
    {
      assert assets.SettledAt(a);
      r := assets.MakeTransfer(a, from, to, amount);
    }

    /** The sender's half of the share index after a transfer. */
    method ForgetShares(from: AccountId, amount: nat)
      modifies this`accountShares, this`paused, this`everPaused
      ensures if amount <= Get(old(accountShares), from) then
                && (forall u :: Get(accountShares, u) == Get(old(accountShares), u) - if u == from then amount else 0)
                && Sum(accountShares) == Sum(old(accountShares)) - amount
                && paused == old(paused) && everPaused == old(everPaused)
              else paused && everPaused && accountShares == old(accountShares)
    {
      if Get(accountShares, from) < amount {
        Pause();
      } else if Get(accountShares, from) == amount {
        SumRemove(accountShares, from);
        accountShares := accountShares - {from};
      } else {
        SumSet(accountShares, from, Get(accountShares, from) - amount);
        accountShares := With(accountShares, from, Get(accountShares, from) - amount);
      }
    }

    /** The receiver's half; shares that reach the collection account leave circulation. */
    method IndexShares(to: AccountId, amount: nat)
      modifies this`accountShares, this`circulation, this`paused, this`everPaused
      ensures to == c.collection ==> accountShares == old(accountShares)
      ensures to == c.collection ==>
        if amount <= old(circulation) then
          circulation == old(circulation) - amount && paused == old(paused) && everPaused == old(everPaused)
        else paused && everPaused && circulation == old(circulation)
      ensures to != c.collection ==> circulation == old(circulation)
      ensures to != c.collection ==>
        if Get(old(accountShares), to) + amount <= MAX_BALANCE then
          && (forall u :: Get(accountShares, u) == Get(old(accountShares), u) + if u == to then amount else 0)
          && Sum(accountShares) == Sum(old(accountShares)) + amount && to in accountShares
          && paused == old(paused) && everPaused == old(everPaused)
        else paused && everPaused && accountShares == old(accountShares)
    {
      if to != c.collection {
        if Get(accountShares, to) + amount > MAX_BALANCE {
          Pause();
        } else {
          SumSet(accountShares, to, Get(accountShares, to) + amount);
          accountShares := With(accountShares, to, Get(accountShares, to) + amount);
        }
      } else if circulation < amount {
        Pause();
      } else {
        circulation := circulation - amount;
      }
    }

    /** The share index follows a transfer that has just been made; `before` is the book before it.
        An index that was in step stays in step, and the pausing branches are not reached. */
    method TrackShareAssetMovement(from: AccountId, to: AccountId, amount: nat, ghost before: Book)
      requires from != to && from != c.collection && amount <= Bal(before, c.share, from)
      requires forall u :: Bal(assets.free, c.share, u) ==
                 Bal(before, c.share, u) - (if u == from then amount else 0) + (if u == to then amount else 0)
      modifies this`accountShares, this`circulation, this`paused, this`everPaused
      ensures (old(everPaused) ==> everPaused) && (paused ==> everPaused || old(paused))
      ensures !old(everPaused) && old(circulation) <= MAX_BALANCE ==>
        Covers(c, before, old(accountShares), old(circulation)) ==>
        && !everPaused && paused == old(paused) && Covers(c, assets.free, accountShares, circulation)
        && circulation == old(circulation) - (if to == c.collection then amount else 0)
        && forall u :: Get(accountShares, u) == Get(old(accountShares), u)
             - (if u == from then amount else 0) + (if u == to && to != c.collection then amount else 0)
      ensures !everPaused && to != c.collection ==> to in accountShares
    {
      SumBoundsOne(accountShares, from);
      SumBoundsTwo(accountShares, from, to);
      ForgetShares(from, amount);
      IndexShares(to, amount);
    }

    /** The hook after shares went from one account to another. */
    method ShareHook(from: AccountId, to: AccountId, amount: nat, ghost s: State)
      requires c.WellFormed() && Inv(c, s) && !s.paused && assets.Valid()
      requires from != to && from != c.collection && AssetMoved(s, View(), c.share, from, to, amount)
      modifies this`accountShares, this`circulation, this`paused, this`everPaused
      ensures SharesMoved(c, s, View(), from, to, amount) && Inv(c, View())
      ensures !s.everPaused && to != c.collection ==> to in accountShares && circulation == s.circulation
    {
      ghost var m := View();
      ShareHookRoom(s, m, from, to, amount);
      assert c.AssetsDistinct();
      hide Inv, Core;
      TrackShareAssetMovement(from, to, amount, s.free);
      ShareHookDone(s, m, View(), from, to, amount);
      SharesMovedKeepsInv(c, s, View(), from, to, amount);
    }

    lemma ShareHookRoom(s: State, m: State, from: AccountId, to: AccountId, amount: nat)
      requires c.WellFormed() && Inv(c, s) && AssetMoved(s, m, c.share, from, to, amount) && from != to
      ensures !s.everPaused ==> Tracked(c, s) && s.circulation <= MAX_BALANCE
      ensures amount <= Bal(s.free, c.share, from)
      ensures forall u :: Bal(m.free, c.share, u) ==
                Bal(s.free, c.share, u) - (if u == from then amount else 0) + (if u == to then amount else 0)
    {
      PositionIsCanonical(c, s, s);
      SharesGrow(c, 0, Cum(c, s), c.Capacity());
      assert Bal(m.free, c.share, from) >= 0;
    }

    lemma ShareHookDone(s: State, m: State, t: State, from: AccountId, to: AccountId, amount: nat)
      requires AssetMoved(s, m, c.share, from, to, amount)
      requires SamePosition(m, t) && t.free == m.free && t.issuance == m.issuance && t.unreleased == m.unreleased
      requires (s.everPaused ==> t.everPaused) && (t.paused ==> t.everPaused || s.paused)
      requires !s.everPaused && Tracked(c, s) ==> !t.everPaused && Tracked(c, t) && t.circulation <= s.circulation
      ensures SharesMoved(c, s, t, from, to, amount)
    {
      hide Tracked;
    }

    /** The hook after the collected asset arrived in the collection account: it is staked, and
        what the schedule does not take stays there. */
    method StakeHook(from: AccountId, amount: nat, ghost s: State) returns (r: Outcome)
      requires c.WellFormed() && Setup() && assets.Valid() && Inv(c, s) && from != c.collection
      requires AssetMoved(s, View(), c.collected, from, c.collection, amount)
      modifies this`phase, this`used, this`left
      modifies this`unreleased, this`accountShares, this`circulation, this`paused, this`everPaused
      modifies assets`free, assets`issuance
      ensures !r.Aborted? ==> r.Done? && assets.Valid() && Inv(c, View())
      ensures !r.Aborted? ==>
        var m := old(View());
        && InPhase(c, m)
        && (if StakeRefused(c, m, amount) then View() == m
            else 0 < Fitting(c, m, amount) <= amount && StakeDone(c, m, View(), from, Fitting(c, m, amount)))
      ensures r.Aborted? <==> StakePanics(c, s, from, amount)
    {
      ghost var m := View();
      assert c.AssetsDistinct();
      PlainMoveKeepsInv(c, s, m, c.collected, from, c.collection, amount);
      assert Core(c, m) && InPhase(c, m) && InPhase(c, s);
      StakeSame(c, s, m, from, amount);
      hide *;
      var staked;
      r, staked := CreateStaking(from, amount);
      if r.Failed? {
        r := Done;                            // the hook's error is ignored
      } else if r.Done? {
        TransferStakes(c, s, m, View(), from, amount, staked);
      }
    }

    /** What follows a transfer that went through. */
    method OnAssetTransfer(a: AssetId, from: AccountId, to: AccountId, amount: nat, ghost s: State)
      returns (r: Outcome, ghost mid: State)
      requires c.WellFormed() && Setup() && assets.Valid() && Inv(c, s) && from != c.collection
      requires AssetMoved(s, View(), a, from, to, amount) && (c.IsIou(a) && to == c.collection ==> s.paused)
      modifies this`phase, this`used, this`left
      modifies this`unreleased, this`accountShares, this`circulation, this`paused, this`everPaused
      modifies assets`free, assets`issuance
      ensures !r.Aborted? ==> r.Done? && assets.Valid() && Inv(c, View())
      ensures !r.Aborted? ==> Transferred(c, s, mid, View(), a, from, to, amount)
      ensures r.Aborted? <==> TransferPanics(c, s, a, from, to, amount)
      ensures a == c.share && NewHolder(c, s, from, to) ==> to in accountShares && circulation == s.circulation
    {
      mid := View();
      r := Done;
      assert s.paused == paused && InPhase(c, s) && c.AssetsDistinct();
      hide Inv, AssetMoved, SharesMoved, StakeDone, StakeRefused, Fitting, StakePanics;
      if paused || from == to {
        PlainMoveKeepsInv(c, s, mid, a, from, to, amount);
      } else if a == c.share {
        ShareHook(from, to, amount, s);
      } else if a == c.collected && to == c.collection {
        r := StakeHook(from, amount, s);
      } else {
        PlainMoveKeepsInv(c, s, mid, a, from, to, amount);
      }
    }

    /** A transfer that is no redemption. */
    method TransferPlain(a: AssetId, from: AccountId, to: AccountId, amount: nat) returns (r: Outcome, ghost mid: State)
      requires c.WellFormed() && Setup() && assets.Valid() && Inv(c, View()) && from != c.collection
      requires to != c.collection || !c.IsIou(a) || paused
      modifies this`phase, this`used, this`left
      modifies this`unreleased, this`accountShares, this`circulation, this`paused, this`everPaused
      modifies assets`free, assets`issuance
      ensures !r.Aborted? ==> assets.Valid() && Inv(c, View())
      ensures r.Failed? ==> View() == old(View())
      ensures r.Done? ==> Transferred(c, old(View()), mid, View(), a, from, to, amount)
      ensures r.Failed? <==> a !in assets.symbols || a in assets.restricted || amount > Bal(old(View()).free, a, from)
      ensures r.Aborted? <==>
        amount <= Bal(old(View()).free, a, from) && TransferPanics(c, old(View()), a, from, to, amount)
      ensures r.Done? && a == c.share && NewHolder(c, old(View()), from, to) ==>
        to in accountShares && circulation == old(circulation)
    {
      mid := View();
      ghost var s := View();
      assert InPhase(c, s);
      hide Inv, AssetMoved, Transferred, StakePanics;
      r := MoveAny(a, from, to, amount);
      if r.Done? { r, mid := OnAssetTransfer(a, from, to, amount, s); }
    }

    /** A transfer of IOUs to the collection account, with the module running. */
    method TransferBack(iou: AssetId, from: AccountId, amount: nat) returns (r: Outcome)
      requires c.WellFormed() && Setup() && assets.Valid() && Inv(c, View()) && from != c.collection
      requires c.IsIou(iou) && !paused
      modifies this`unreleased, this`accountShares, this`circulation, this`paused, this`everPaused
      modifies assets`free, assets`issuance
      ensures !r.Aborted? ==> assets.Valid() && Inv(c, View())
      ensures r.Failed? ==> View() == old(View())
      ensures r.Done? ==> RedeemedFor(c, old(View()), View(), from, c.PhaseOf(iou), amount, false)
      ensures r.Done? <==>
        RedeemAccepted(c, old(View()), from, iou, amount) && !LeavesUneven(c, old(View()), from, c.PhaseOf(iou), amount)
    {
      assert InPhase(c, View());
      hide Core, Covered, Inv, RedeemedFor, LeavesUneven, CheckCanRedeem;
      r := RedeemCheck(from, iou, amount);
      if r.Done? { r := HandIn(from, iou, amount); }
    }

    lemma RedeemIsTransfer(s: State, mid: State, t: State, iou: AssetId, from: AccountId, amount: nat)
      requires c.AssetsDistinct() && !s.paused && c.IsIou(iou) && from != c.collection && InPhase(c, s)
      requires RedeemAccepted(c, s, from, iou, amount) && RedeemedFor(c, s, t, from, c.PhaseOf(iou), amount, false)
      ensures Transferred(c, s, mid, t, iou, from, c.collection, amount)
    {
      hide RedeemedFor, RedeemAccepted;
    }

    /** `transfer`.  IOUs sent to the collection account are redeemed, the collected asset sent
        there is staked, and shares are tracked, all unless the module is paused. */
    method Transfer(a: AssetId, from: AccountId, to: AccountId, amount: nat) returns (r: Outcome, ghost mid: State)
      requires c.WellFormed() && Setup() && assets.Valid() && Inv(c, View()) && from != c.collection
      modifies this`phase, this`used, this`left
      modifies this`unreleased, this`accountShares, this`circulation, this`paused, this`everPaused
      modifies assets`free, assets`issuance
      ensures !r.Aborted? ==> assets.Valid() && Inv(c, View())
      ensures r.Failed? ==> View() == old(View())
      ensures r.Done? ==> Transferred(c, old(View()), mid, View(), a, from, to, amount)
      ensures to == c.collection && c.IsIou(a) && !old(paused) ==>
        (r.Done? <==>
           RedeemAccepted(c, old(View()), from, a, amount) && !LeavesUneven(c, old(View()), from, c.PhaseOf(a), amount))
      ensures to != c.collection || !c.IsIou(a) || old(paused) ==>
        (r.Failed? <==> a !in assets.symbols || a in assets.restricted || amount > Bal(old(View()).free, a, from))
      ensures to != c.collection || !c.IsIou(a) || old(paused) ==>
        (r.Aborted? <==>
           amount <= Bal(old(View()).free, a, from) && TransferPanics(c, old(View()), a, from, to, amount))
      ensures r.Done? && a == c.share && NewHolder(c, old(View()), from, to) ==>
        to in accountShares && circulation == old(circulation)
    {
      mid := View();
      ghost var s := View();
      assert InPhase(c, s) && c.AssetsDistinct();
      hide Inv, Transferred, RedeemedFor, LeavesUneven, RedeemAccepted, TransferPanics;
      if !paused && c.IsIou(a) && to == c.collection {
        r := TransferBack(a, from, amount);
        if r.Done? { RedeemIsTransfer(s, mid, View(), a, from, amount); }
      } else {
        r, mid := TransferPlain(a, from, to, amount);
      }
    }

    // ------------------------------------------------------------ bonuses

    /** One holder's bonus; a transfer that fails is skipped. */
    method PayBonus(u: AccountId, users: nat, todo: set<AccountId>, ghost s: State) returns (r: Outcome)
      requires c.AssetsDistinct() && Setup() && assets.Valid() && OutsideOnly(c, s, View())
      requires u in todo && todo <= accountShares.Keys
      modifies assets`free
      ensures assets.Valid() && !r.Failed? && OutsideOnly(c, s, View())
      ensures r.Aborted? <==> BonusOverflows(accountShares[u], users, circulation)
      ensures r.Done? && FairShares(s) && BonusPaid(c, s, old(View()), accountShares - todo, users) ==>
        BonusPaid(c, s, View(), accountShares - (todo - {u}), users)
    {
      ghost var m := View();
      assert s.accountShares == accountShares && s.circulation == circulation;
      if BonusOverflows(accountShares[u], users, circulation) { return Aborted; }
      var bonus := Bonus(accountShares[u], users, circulation);
      hide OutsideOnly, BonusPaid, Bonus, Bonuses, BonusOverflows;
      if FairShares(s) && BonusPaid(c, s, m, accountShares - todo, users) { PayOneMore(c, s, m, todo, users, u); }
      var sent := Move(c.profitAsset, c.profitPool, u, bonus);
      ProfitIsOutside(c, s, m, View(), c.profitPool, u, bonus);
      return Done;
    }

    /** Every holder's bonus out of the `users` part of the profit. */
    method PayBonuses(users: nat) returns (r: Outcome)
      requires c.AssetsDistinct() && Setup() && assets.Valid()
      modifies assets`free
      ensures assets.Valid() && !r.Failed? && OutsideOnly(c, old(View()), View())
      ensures r.Aborted? <==> BonusesOverflow(old(View()), users)
      ensures r.Done? && FairShares(old(View())) && Bal(old(View()).free, c.profitAsset, c.profitPool) == users ==>
        && BonusPaid(c, old(View()), View(), accountShares, users)
        && Bal(View().free, c.profitAsset, c.profitPool) < |accountShares|
             + Get(Bonuses(accountShares, users, circulation), c.profitPool)
    {
      ghost var s := View();
      ghost var fair := FairShares(s) && Bal(s.free, c.profitAsset, c.profitPool) == users;
      var todo := accountShares.Keys;
      assert OutsideOnly(c, s, s);
      hide OutsideOnly, BonusPaid, BonusOverflows;
      if fair { NobodyPaid(c, s, s, accountShares, users); }
      while todo != {}
        invariant todo <= accountShares.Keys && assets.Valid() && OutsideOnly(c, s, View())
        invariant forall u :: u in accountShares.Keys - todo ==> !BonusOverflows(accountShares[u], users, circulation)
        invariant fair ==> BonusPaid(c, s, View(), accountShares - todo, users)
        decreases todo
      {
        var u :| u in todo;
        r := PayBonus(u, users, todo, s);
        if r.Aborted? { return; }
        todo := todo - {u};
      }
      assert todo == {};
      if fair { EverybodyPaid(c, s, View(), users); }
      return Done;
    }

    /** A day's profit: the team's cut, then a bonus for everybody in the share index. */
    method DispatchBonus() returns (r: Outcome)
      requires c.WellFormed() && Setup() && assets.Valid()
      modifies assets`free
      ensures assets.Valid() && !r.Failed? && OutsideOnly(c, old(View()), View())
      ensures r.Aborted? <==> ProfitOverflows(c, old(View()))
      ensures r.Done? && FairShares(old(View())) ==> ProfitShared(c, old(View()), View())
    {
      ghost var s := View();
      var total := assets.Free(c.profitAsset, c.profitPool);
      assert OutsideOnly(c, s, s) && c.AssetsDistinct();
      hide OutsideOnly, BonusPaid, ProfitShared, FairShares, Bonuses, BonusesOverflow, AssetMoved;
      if total * 8 > MAX_BALANCE { return Aborted; }
      var users := UsersPart(total);
      var sent := Move(c.profitAsset, c.profitPool, c.team, total - users);
      ghost var m := View();
      ProfitIsOutside(c, s, s, m, c.profitPool, c.team, total - users);
      TeamPaid(s, m, total, users);
      hide UsersPart;
      r := PayBonuses(users);
      OutsideTwice(c, s, m, View());
      if r.Done? && FairShares(s) { TeamThenUsers(c, s, m, View(), total); }
    }

    lemma TeamPaid(s: State, m: State, total: nat, users: nat)
      requires c.WellFormed() && total == Bal(s.free, c.profitAsset, c.profitPool) && users <= total
      requires AssetMoved(s, m, c.profitAsset, c.profitPool, c.team, total - users)
      ensures Bal(m.free, c.profitAsset, c.profitPool) == users
      ensures BonusesOverflow(m, users) <==> BonusesOverflow(s, users)
    {
      assert c.AssetsDistinct();
    }

    /** The start of a block: at most one bonus for every full day since the last. */
    method OnInitialize(now: nat) returns (r: Outcome, dispatched: bool)
      requires c.WellFormed() && Setup() && assets.Valid()
      modifies this`lastBonusTime, assets`free
      ensures assets.Valid() && !r.Failed? && OutsideOnly(c, old(View()), View())
      ensures old(lastBonusTime) <= now ==> lastBonusTime <= now
      ensures dispatched <==> !paused && old(lastBonusTime) != 0 && old(lastBonusTime) + DAY_IN_MILLI <= now
      ensures dispatched ==> lastBonusTime == old(lastBonusTime) + DAY_IN_MILLI
      ensures dispatched ==> (r.Aborted? <==> ProfitOverflows(c, old(View())))
      ensures !dispatched ==> (r.Aborted? <==> !paused && now < old(lastBonusTime))
      ensures !dispatched && (paused || old(lastBonusTime) != 0) ==> lastBonusTime == old(lastBonusTime)
      ensures r.Done? && dispatched && FairShares(old(View())) ==> ProfitShared(c, old(View()), View())
      ensures BlockEnds(c, old(View()), View(), now, old(lastBonusTime), lastBonusTime, r)
    {
      assert OutsideOnly(c, View(), View());
      hide OutsideOnly, FairShares, ProfitShared, ProfitOverflows;
      if paused { return Done, false; }
      if lastBonusTime == 0 {
        lastBonusTime := now / DAY_IN_MILLI * DAY_IN_MILLI;
        return Done, false;
      }
      if now < lastBonusTime { return Aborted, false; }
      if now - lastBonusTime < DAY_IN_MILLI { return Done, false; }
      lastBonusTime := lastBonusTime + DAY_IN_MILLI;
      dispatched := true;
      r := DispatchBonus();
    }

    /** Shares to nobody's loss: none of them, but their receiver is in the index afterwards. */
    method SendNoShares(from: AccountId, to: AccountId) returns (r: Outcome)
      requires c.WellFormed() && Setup() && assets.Valid() && Inv(c, View()) && !everPaused && circulation == 0
      requires from != to && from != c.collection && to != c.collection
      modifies this`phase, this`used, this`left, this`unreleased, this`accountShares, this`circulation
      modifies this`paused, this`everPaused, assets`free, assets`issuance
      ensures r.Done? && assets.Valid() && !paused && ProfitOverflows(c, View())
    {
      ghost var s := View();
      IndexInStep(s);
      assert assets.Usable(c.share);
      hide Inv, Transferred, ProfitOverflows, Setup, Assets.Valid, Config.WellFormed, RedeemAccepted, LeavesUneven;
      ghost var mid;
      r, mid := Transfer(c.share, from, to, 0);
      StillRunning(s, mid, View(), from, to);
      OverflowsAt(View(), to);
    }

    /** Before the first stake, anybody can send anybody zero shares.  That enters the receiver in the
        index while the circulation is zero, and the next bonus divides by it: the block that is to
        give it out cannot begin. */
    method EmptyTransferStopsBonus(from: AccountId, to: AccountId, now: nat) returns (r: Outcome, block: Outcome)
      requires c.WellFormed() && Setup() && assets.Valid() && Inv(c, View()) && !everPaused && circulation == 0
      requires from != to && from != c.collection && to != c.collection
      requires lastBonusTime != 0 && lastBonusTime + DAY_IN_MILLI <= now
      modifies this`phase, this`used, this`left, this`unreleased, this`accountShares, this`circulation
      modifies this`paused, this`everPaused, this`lastBonusTime, assets`free, assets`issuance
      ensures r.Done? && block.Aborted?
    {
      hide *;
      r := SendNoShares(from, to);
      var dispatched;
      block, dispatched := OnInitialize(now);
    }

    lemma IndexInStep(s: State)
      requires c.WellFormed() && Inv(c, s) && !s.everPaused
      ensures InPhase(c, s) && Tracked(c, s) && !s.paused && c.share != c.collected && !c.IsIou(c.share)
    {
    }

    lemma StillRunning(s: State, mid: State, t: State, from: AccountId, to: AccountId)
      requires InPhase(c, s) && Tracked(c, s) && !s.paused && !s.everPaused && from != to
      requires Transferred(c, s, mid, t, c.share, from, to, 0) && Inv(c, t)
      ensures !t.paused
    {
    }

    lemma OverflowsAt(t: State, to: AccountId)
      requires t.circulation == 0 && to in t.accountShares
      ensures ProfitOverflows(c, t)
    {
      assert forall users: nat :: BonusOverflows(t.accountShares[to], users, t.circulation);
    }

    // ------------------------------------------------------------ runs

    /** One call, without the roll-back of a panic. */
    method Execute(call: Call) returns (r: Outcome)
      requires c.WellFormed() && Setup() && assets.Valid() && Inv(c, View()) && !call.SpendsFrom(c.collection)
      modifies this`phase, this`used, this`left, this`unreleased, this`accountShares, this`circulation
      modifies this`paused, this`everPaused, this`lastBonusTime, assets`free, assets`issuance
      ensures !r.Aborted? ==> assets.Valid() && Step(c, call, old(View()), View())
      ensures Ends(c, call, old(View()), View(), r)
      ensures if call.Block? then BlockEnds(c, old(View()), View(), call.now, old(lastBonusTime), lastBonusTime, r)
              else lastBonusTime == old(lastBonusTime)
    {
      ghost var s := View();
      match call
      case Stake(who, asset, amount, price) =>
        hide Inv, Step, StakeEnds;
        r := ExecuteStake(call, who, asset, amount, price);
      case Redeem(who, iou, amount, price) =>
        hide Inv, Step, RedeemEnds;
        r := ExecuteRedeem(call, who, iou, amount, price);
      case SudoRedeem(who, iou, amount) =>
        hide Inv, Step, SudoRedeemEnds;
        r := ExecuteSudoRedeem(call, who, iou, amount);
      case Transfer(a, from, to, amount) =>
        hide *;
        r := ExecuteTransfer(call, a, from, to, amount);
      case SetPaused(on) =>
        hide Inv, Step;
        Switch(on);
        r := Done;
        PauseStep(c, s, View(), on);
      case ForceBonus =>
        hide Inv, OutsideOnly, Step, FairShares, ProfitShared, ProfitOverflows;
        if paused { NoStep(c, call, s); return Failed("module is paused"); }
        r := DispatchBonus();
        OutsideStep(c, call, s, View());
      case Block(now) =>
        hide Inv, OutsideOnly, Step, BlockEnds, Ends;
        var dispatched;
        r, dispatched := OnInitialize(now);
        OutsideStep(c, call, s, View());
        BlockIsEnd(c, call, s, View(), old(lastBonusTime), lastBonusTime, r);
    }

    /** `pause` and `resume`. */
    method Switch(on: bool)
      modifies this`paused, this`everPaused
      ensures paused == on && everPaused == (old(everPaused) || on)
      ensures SamePosition(old(View()), View()) && SameHoldings(old(View()), View())
    {
      paused := on;
      everPaused := everPaused || on;
    }

    method ExecuteStake(call: Call, who: AccountId, asset: AssetId, amount: nat, price: nat) returns (r: Outcome)
      requires c.WellFormed() && Setup() && assets.Valid() && Inv(c, View()) && who != c.collection
      requires call == Call.Stake(who, asset, amount, price)
      modifies this`phase, this`used, this`left
      modifies this`unreleased, this`accountShares, this`circulation, this`paused, this`everPaused
      modifies assets`free, assets`issuance
      ensures !r.Aborted? ==> assets.Valid() && Step(c, call, old(View()), View())
      ensures StakeEnds(c, old(View()), View(), who, asset, amount, price, r)
    {
      ghost var s := View();
      assert InPhase(c, s);
      hide Inv, Step, StakePaid, StakingAccepted, StakingPanics, ReserveMinted, SoldTo, Fitting;
      NoStep(c, call, s);
      var staked;
      r, staked := Staking(who, asset, amount, price);
      if !r.Aborted? && staked > 0 { StakeStep(c, call, s, View(), who, staked); }
    }

    method ExecuteRedeem(call: Call, who: AccountId, iou: AssetId, amount: nat, price: nat) returns (r: Outcome)
      requires c.WellFormed() && Setup() && assets.Valid() && Inv(c, View())
      requires call == Call.Redeem(who, iou, amount, price)
      requires who != c.collection
      modifies this`unreleased, this`accountShares, this`circulation, this`paused, this`everPaused, assets`free
      modifies assets`issuance
      ensures !r.Aborted? ==> assets.Valid() && Step(c, call, old(View()), View())
      ensures RedeemEnds(c, old(View()), View(), who, iou, amount, price, r)
    {
      ghost var s := View();
      assert InPhase(c, s) && c.AssetsDistinct();
      hide Inv, Step, RedeemedFor, RedeemAccepted, LeavesUneven, RedeemChecked, ReserveTaken, ReserveHeld, RedeemEnds;
      ghost var mid;
      r, mid := Redeem(who, iou, amount, price);
      RedeemIs(c, s, mid, View(), who, iou, amount, price, r);
      if r.Failed? {
        ReservedIsOutside(c, s, mid);
        OutsideStep(c, call, s, mid);
      } else if r.Done? {
        RedeemStep(c, call, s, mid, View(), who, iou, amount);
      }
    }

    method ExecuteSudoRedeem(call: Call, who: AccountId, iou: AssetId, amount: nat) returns (r: Outcome)
      requires c.WellFormed() && Setup() && assets.Valid() && Inv(c, View())
      requires call == Call.SudoRedeem(who, iou, amount)
      requires who != c.collection
      modifies this`unreleased, this`accountShares, this`circulation, this`paused, this`everPaused, assets`free
      modifies assets`issuance
      ensures !r.Aborted? ==> assets.Valid() && Step(c, call, old(View()), View())
      ensures SudoRedeemEnds(c, old(View()), View(), who, iou, amount, r)
    {
      ghost var s := View();
      assert InPhase(c, s) && ReservedOnly(c, s, s);
      NoStep(c, call, s);
      hide Inv, Step, RedeemedFor, RedeemAccepted, LeavesUneven, ReservedOnly;
      r := SudoRedeem(who, iou, amount);
      if r.Done? { RedeemStep(c, call, s, s, View(), who, iou, amount); }
    }

    method ExecuteTransfer(call: Call, a: AssetId, from: AccountId, to: AccountId, amount: nat) returns (r: Outcome)
      requires c.WellFormed() && Setup() && assets.Valid() && Inv(c, View())
      requires call == Call.Transfer(a, from, to, amount)
      requires from != c.collection
      modifies this`phase, this`used, this`left
      modifies this`unreleased, this`accountShares, this`circulation, this`paused, this`everPaused
      modifies assets`free, assets`issuance
      ensures !r.Aborted? ==> assets.Valid() && Step(c, call, old(View()), View())
      ensures Ends(c, call, old(View()), View(), r)
    {
      ghost var s := View();
      assert InPhase(c, s);
      NoStep(c, call, s);
      hide Inv, Step, RedeemAccepted, LeavesUneven, Transferred, TransferPanics, Ends;
      ghost var mid;
      r, mid := Transfer(a, from, to, amount);
      TransferIs(c, s, mid, View(), a, from, to, amount, r);
      if r.Done? { TransferStep(c, call, s, mid, View()); }
    }

    /** Throws away what was written since the given storage was current. */
    method RollBack(phase0: nat, used0: nat, left0: nat, unreleased0: map<AccountId, seq<Pack>>,
                    accountShares0: map<AccountId, nat>, circulation0: nat, paused0: bool, ghost everPaused0: bool,
                    time0: nat, free0: Book, issuance0: map<AssetId, nat>)
      modifies this`phase, this`used, this`left, this`unreleased, this`accountShares, this`circulation
      modifies this`paused, this`everPaused, this`lastBonusTime, assets`free, assets`issuance
      ensures View() == State(free0, issuance0, unreleased0, phase0, used0, left0, accountShares0, circulation0,
                              paused0, everPaused0)
      ensures lastBonusTime == time0 && assets.free == free0 && assets.issuance == issuance0
    {
      phase, used, left, unreleased := phase0, used0, left0, unreleased0;
      accountShares, circulation, paused, lastBonusTime := accountShares0, circulation0, paused0, time0;
      everPaused := everPaused0;
      assets.free, assets.issuance := free0, issuance0;
    }

    /** A dispatched call.  What a panic leaves behind is thrown away. */
    method Dispatch(call: Call) returns (r: Outcome)
      requires c.WellFormed() && Setup() && assets.Valid() && Inv(c, View()) && !call.SpendsFrom(c.collection)
      modifies this`phase, this`used, this`left, this`unreleased, this`accountShares, this`circulation
      modifies this`paused, this`everPaused, this`lastBonusTime, assets`free, assets`issuance
      ensures assets.Valid() && Step(c, call, old(View()), View()) && Ends(c, call, old(View()), View(), r)
      ensures Did(c, call, old(View()), View(), old(lastBonusTime), lastBonusTime, r)
    {
      ghost var wasPaused := everPaused;
      ghost var s := View();
      NoStep(c, call, View());
      var phase0, used0, left0, unreleased0 := phase, used, left, unreleased;
      var accountShares0, circulation0, paused0, time0 := accountShares, circulation, paused, lastBonusTime;
      var free0, issuance0 := assets.free, assets.issuance;
      assert View() == State(free0, issuance0, unreleased0, phase0, used0, left0, accountShares0, circulation0, paused0,
                        wasPaused);
      hide *;
      r := Execute(call);
      if r.Aborted? {
        ghost var m, time := View(), lastBonusTime;
        RollBack(phase0, used0, left0, unreleased0, accountShares0, circulation0, paused0, wasPaused,
                 time0, free0, issuance0);
        assert assets.Valid();
        PanicEnds(c, call, s, m, View());
        if call.Block? { BlockPanics(c, s, m, call.now, time0, time); }
      }
      DidIs(c, call, s, View(), time0, lastBonusTime, r);
    }

    /** Any sequence of calls, state by state: the laws hold throughout, nobody whom every call spares
        has lost anything in the end, and only root ever pauses the module. */
    method Run(calls: seq<Call>) returns (ghost trace: seq<State>, ghost times: seq<nat>, ghost ends: seq<Outcome>)
      requires c.WellFormed() && Setup() && assets.Valid() && Inv(c, View())
      requires forall i :: 0 <= i < |calls| ==> !calls[i].SpendsFrom(c.collection)
      modifies this`phase, this`used, this`left, this`unreleased, this`accountShares, this`circulation
      modifies this`paused, this`everPaused, this`lastBonusTime, assets`free, assets`issuance
      ensures assets.Valid() && Inv(c, View())
      ensures |trace| == |calls| + 1 == |times| == |ends| + 1 && trace[0] == old(View()) && trace[|calls|] == View()
      ensures times[0] == old(lastBonusTime) && times[|calls|] == lastBonusTime
      ensures DidAll(c, calls, trace, times, ends, |calls|) && RunKept(c, calls, trace)
    {
      trace, times, ends := [View()], [lastBonusTime], [];
      assert DidAll(c, calls, trace, times, ends, 0);
      hide *;
      for k := 0 to |calls|
        invariant assets.Valid() && Inv(c, View())
        invariant |trace| == |times| == k + 1 == |ends| + 1 && trace[0] == old(View()) && trace[k] == View()
        invariant times[0] == old(lastBonusTime) && times[k] == lastBonusTime
        invariant DidAll(c, calls, trace, times, ends, k)
      {
        var r := Dispatch(calls[k]);
        StepKeepsInv(c, calls[k], trace[k], View());
        DidOneMore(c, calls, trace, times, ends, View(), lastBonusTime, r);
        trace, times, ends := trace + [View()], times + [lastBonusTime], ends + [r];
      }
      RunMeans(c, calls, trace, times, ends);
    }

    /** Hands in all IOUs of a phase, by a transfer to the collection account: for an account with a
        way out, it goes through whenever the module runs. */
    method ClearPhase(who: AccountId, p: nat) returns (r: Outcome)
      requires c.WellFormed() && Setup() && assets.Valid() && Inv(c, View()) && 1 <= p <= c.N() && who != c.collection
      modifies this`phase, this`used, this`left, this`unreleased, this`accountShares, this`circulation
      modifies this`paused, this`everPaused, this`lastBonusTime, assets`free, assets`issuance
      ensures assets.Valid() && Inv(c, View())
      ensures !old(paused) && Pristine(c, old(View()), who) ==>
        r.Done? && !paused && PhaseCleared(c, old(View()), View(), who, p)
    {
      ghost var s := View();
      var iou := c.At(p).iou;
      var amount := assets.Free(iou, who);
      c.IouFound(p);
      if Pristine(c, s, who) && !paused { WholePhaseAccepted(who, p, amount); }
      assert InPhase(c, s);
      hide *;
      var call := Call.Transfer(iou, who, c.collection, amount);
      assert !call.SpendsFrom(c.collection) by { NotSpending(iou, who, c.collection, amount); }
      r := Dispatch(call);
      StepKeepsInv(c, call, s, View());
      if Pristine(c, s, who) && !s.paused { Cleared(s, View(), who, p, amount, r); }
    }

    lemma NotSpending(a: AssetId, from: AccountId, to: AccountId, amount: nat)
      requires from != c.collection
      ensures !Call.Transfer(a, from, to, amount).SpendsFrom(c.collection)
    {
    }

    lemma WholePhaseAccepted(who: AccountId, p: nat, amount: nat)
      requires c.WellFormed() && Setup() && assets.Valid() && Inv(c, View()) && !paused && Pristine(c, View(), who)
      requires 1 <= p <= c.N() && amount == assets.Free(c.At(p).iou, who)
      ensures WholePhase(c, View(), who, p, amount)
    {
      ghost var s := View();
      forall q | 1 <= q <= c.N() ensures Bal(s.free, c.At(q).iou, who) <= s.Issued(c.At(q).iou) {
        assets.Bounded(c.At(q).iou, who);
      }
      c.IouFound(p);
      WholePhaseRedeems(c, s, who, p, amount);
    }

    lemma Cleared(s: State, t: State, who: AccountId, p: nat, amount: nat, r: Outcome)
      requires c.WellFormed() && InPhase(c, s) && 1 <= p <= c.N() && Pristine(c, s, who) && !s.paused
      requires amount == Bal(s.free, c.At(p).iou, who) && WholePhase(c, s, who, p, amount)
      requires Ends(c, Call.Transfer(c.At(p).iou, who, c.collection, amount), s, t, r)
      ensures r.Done? && !t.paused && PhaseCleared(c, s, t, who, p)
    {
      c.IouFound(p);
      hide Pristine, LeavesUneven, CheckCanRedeem, RedeemAccepted, RedeemedFor, RedeemTake, PhaseCleared;
      StaysOpen(s, t, who, p, amount);
      ClearsPhase(c, s, t, who, p, amount);
    }

    lemma StaysOpen(s: State, t: State, who: AccountId, p: nat, amount: nat)
      requires 1 <= p <= c.N() && s.left >= 1 && RedeemedFor(c, s, t, who, p, amount, false)
      ensures t.paused == s.paused
    {
    }

    /** What the ledger guarantees of the IOUs of an account. */
    lemma IousAreIssued(who: AccountId)
      requires c.WellFormed() && Setup() && assets.Valid() && Core(c, View())
      ensures HeldIsIssued(c, View(), who) && PartsFit(c, View(), who)
    {
      forall q | 1 <= q <= c.N() ensures Bal(View().free, c.At(q).iou, who) <= View().Issued(c.At(q).iou) {
        assets.Bounded(c.At(q).iou, who);
      }
      PartsDoFit(c, View(), who);
    }

    lemma PausedIs()
      ensures View().paused == paused
    {
    }

    /** Any account hands in all its IOUs of some phases, one phase after the other, up to the first
        that is refused.  Whether all of them go through is decided by its pockets before the first. */
    method HandInAll(who: AccountId, order: seq<nat>) returns (all: bool)
      requires c.WellFormed() && Setup() && assets.Valid() && Inv(c, View()) && who != c.collection && InOrder(c, order)
      modifies this`phase, this`used, this`left, this`unreleased, this`accountShares, this`circulation
      modifies this`paused, this`everPaused, this`lastBonusTime, assets`free, assets`issuance
      ensures assets.Valid() && Inv(c, View()) && PartsFit(c, old(View()), who)
      ensures !old(paused) ==> (all <==> AllGo(c, old(View()), who, order, Bal(old(View()).free, c.share, who)))
      ensures !old(paused) && all ==> HandedBack(c, old(View()), View(), who, order, |order|)
    {
      ghost var s := View();
      hide *;
      PausedIs();
      InvParts(c, s);
      IousAreIssued(who);
      all := true;
      var k := 0;
      if !paused { NothingHandedBack(c, s, who, order); }
      while k < |order| && all
        invariant assets.Valid() && Inv(c, View()) && k <= |order|
        invariant !s.paused && all ==> HandedBack(c, s, View(), who, order, k)
        invariant !s.paused && !all ==> !AllGo(c, s, who, order, Bal(s.free, c.share, who))
      {
        all := HandInNext(who, order, k, s);
        k := k + 1;
      }
      if !s.paused && all { AllHandedBack(c, s, View(), who, order); }
    }

    method HandInNext(who: AccountId, order: seq<nat>, k: nat, ghost s: State) returns (done: bool)
      requires c.WellFormed() && Setup() && assets.Valid() && Inv(c, View()) && who != c.collection && InOrder(c, order)
      requires k < |order| && PartsFit(c, s, who) && (!s.paused ==> HandedBack(c, s, View(), who, order, k))
      modifies this`phase, this`used, this`left, this`unreleased, this`accountShares, this`circulation
      modifies this`paused, this`everPaused, this`lastBonusTime, assets`free, assets`issuance
      ensures assets.Valid() && Inv(c, View())
      ensures !s.paused && done ==> HandedBack(c, s, View(), who, order, k + 1)
      ensures !s.paused && !done ==> !AllGo(c, s, who, order, Bal(s.free, c.share, who))
    {
      ghost var m := View();
      assert 1 <= order[k] <= c.N();
      hide *;
      InvParts(c, m);
      IousAreIssued(who);
      var iou := c.At(order[k]).iou;
      var call := Call.Transfer(iou, who, c.collection, assets.Free(iou, who));
      assert !call.SpendsFrom(c.collection) by { NotSpending(iou, who, c.collection, call.amount); }
      var r := Dispatch(call);
      StepKeepsInv(c, call, m, View());
      if !s.paused { HandsInOneMore(c, s, m, View(), who, order, k, r); }
      done := r.Done?;
    }

    /** The way out.  An account whose shares cover its IOUs hands in those of every phase, the
        phases in any order, by plain transfers to the collection account: while the module runs
        every transfer goes through, and at the end the whole stake is back. */
    method WayOut(who: AccountId, order: seq<nat>) returns (r: Outcome)
      requires c.WellFormed() && Setup() && assets.Valid() && Inv(c, View()) && who != c.collection
      requires forall i :: 0 <= i < |order| ==> 1 <= order[i] <= c.N()
      requires forall p :: 1 <= p <= c.N() ==> p in order
      modifies this`phase, this`used, this`left, this`unreleased, this`accountShares, this`circulation
      modifies this`paused, this`everPaused, this`lastBonusTime, assets`free, assets`issuance
      ensures assets.Valid() && Inv(c, View())
      ensures !old(paused) && Pristine(c, old(View()), who) ==> r.Done? && Out(c, old(View()), View(), who)
    {
      ghost var s := View();
      hide Inv, Pristine, Wealth, Surplus, Out, PhaseCleared;
      r := Done;
      for k := 0 to |order|
        invariant assets.Valid() && Inv(c, View())
        invariant !s.paused && Pristine(c, s, who) ==> r.Done? && !paused && ClearedUpTo(c, s, View(), who, order, k)
      {
        ghost var m := View();
        assert ClearedUpTo(c, s, m, who, order, k) ==> Pristine(c, m, who);
        hide ClearedUpTo;
        r := ClearPhase(who, order[k]);
        if !s.paused && Pristine(c, s, who) { ClearsOneMore(c, s, m, View(), who, order, k); }
      }
      InvParts(c, View());
      if !s.paused && Pristine(c, s, who) { AllCleared(c, s, View(), who, order); }
    }

    method RunAndLeave(calls: seq<Call>, who: AccountId, order: seq<nat>) returns (ghost trace: seq<State>, r: Outcome)
      requires c.WellFormed() && Setup() && assets.Valid() && Genesis(c, View()) && who != c.collection
      requires forall i :: 0 <= i < |calls| ==> !calls[i].SpendsFrom(c.collection)
      requires forall i :: 0 <= i < |order| ==> 1 <= order[i] <= c.N()
      requires forall p :: 1 <= p <= c.N() ==> p in order
      modifies this`phase, this`used, this`left, this`unreleased, this`accountShares, this`circulation
      modifies this`paused, this`everPaused, this`lastBonusTime, assets`free, assets`issuance
      ensures |trace| == |calls| + 1 && trace[0] == old(View())
      ensures forall k :: 0 <= k < |calls| ==> Inv(c, trace[k]) && Step(c, calls[k], trace[k], trace[k + 1])
      ensures SparedBy(c, calls, trace, who) ==> r.Done? && GotOut(c, old(View()), View(), who)
    {
      ghost var s := View();
      hide Inv, Step, Unharmed, SparedBy, Pristine, Wealth, Surplus, Out, GotOut, Ends, DidAll, Config.WellFormed;
      hide RespectedBy, Claim, Kept, ClaimAlong;
      assert Inv(c, s);
      hide Genesis;
      ghost var times, ends;
      trace, times, ends := Run(calls);
      DidAllSteps(c, calls, trace, times, ends);
      ghost var t := View();
      var open := Call.SetPaused(false);
      r := Dispatch(open);
      ghost var o := View();
      StepKeepsInv(c, open, t, o);
      OpensUnharmed(c, t, o, who);
      assert !paused by { Opened(c, t, o, r); }
      r := WayOut(who, order);
      if SparedBy(c, calls, trace, who) { OutInTheEnd(c, s, t, o, View(), who); }
    }

    /** Hands in a claim, by transfers to the collection account: while the module runs every transfer goes
        through, whatever else the account holds, and the claim's worth is back. */
    method TakeBack(who: AccountId, amounts: seq<nat>, order: seq<nat>) returns (r: Outcome)
      requires c.WellFormed() && Setup() && assets.Valid() && Inv(c, View()) && who != c.collection
      requires |amounts| == c.N()
      requires forall i :: 0 <= i < |order| ==> 1 <= order[i] <= c.N()
      requires forall p :: 1 <= p <= c.N() ==> p in order
      modifies this`phase, this`used, this`left, this`unreleased, this`accountShares, this`circulation
      modifies this`paused, this`everPaused, this`lastBonusTime, assets`free, assets`issuance
      ensures assets.Valid() && Inv(c, View())
      ensures !old(paused) && Claim(c, old(View()), who, amounts) ==>
        r.Done? && Bal(View().free, c.collected, who) >= ClaimWorth(c, old(View()), who, amounts)
    {
      ghost var s := View();
      hide *;
      PausedIs();
      var rest := amounts;
      r := Done;
      if Claim(c, s, who, amounts) { NothingTakenBack(c, s, who, amounts); }
      for k := 0 to |order|
        invariant assets.Valid() && Inv(c, View()) && |rest| == c.N()
        invariant forall i :: 0 <= i < k ==> rest[order[i] - 1] == 0
        invariant !s.paused && Claim(c, s, who, amounts) ==>
          r.Done? && !paused && Kept(c, s, View(), who, amounts, rest)
      {
        ghost var m := View();
        PausedIs();
        var x := rest[order[k] - 1];
        r := TakePiece(who, order[k], x, rest);
        PausedIs();
        if !s.paused && Claim(c, s, who, amounts) {
          KeptIsClaim(c, s, m, who, amounts, rest);
          KeptTwice(c, s, m, View(), who, amounts, rest, rest[order[k] - 1 := 0]);
        }
        rest := rest[order[k] - 1 := 0];
      }
      if !s.paused && Claim(c, s, who, amounts) {
        AllTakenBack(c, s, View(), who, amounts, rest, order);
      }
    }

    method TakePiece(who: AccountId, p: nat, x: nat, ghost ys: seq<nat>) returns (r: Outcome)
      requires c.WellFormed() && Setup() && assets.Valid() && Inv(c, View()) && who != c.collection && 1 <= p <= c.N()
      requires |ys| == c.N() && x == ys[p - 1]
      modifies this`phase, this`used, this`left, this`unreleased, this`accountShares, this`circulation
      modifies this`paused, this`everPaused, this`lastBonusTime, assets`free, assets`issuance
      ensures assets.Valid() && Inv(c, View())
      ensures !old(paused) && Claim(c, old(View()), who, ys) ==>
        r.Done? && !paused && Kept(c, old(View()), View(), who, ys, ys[p - 1 := 0])
    {
      ghost var s := View();
      hide *;
      PausedIs();
      InvParts(c, s);
      IousAreIssued(who);
      var iou := c.At(p).iou;
      var call := Call.Transfer(iou, who, c.collection, x);
      assert !call.SpendsFrom(c.collection) by { NotSpending(iou, who, c.collection, x); }
      r := Dispatch(call);
      StepKeepsInv(c, call, s, View());
      PausedIs();
      if !s.paused && Claim(c, s, who, ys) { PieceTakenBack(c, s, View(), who, ys, p, r); }
    }

    /** A run from genesis, and then the claim: what the account staked for itself, by its own calls, is
        there to be taken back, whatever others did and whatever they sent it. */
    method RunAndTakeBack(calls: seq<Call>, who: AccountId, amounts: seq<nat>, order: seq<nat>)
      returns (ghost trace: seq<State>, r: Outcome)
      requires c.WellFormed() && Setup() && assets.Valid() && Genesis(c, View()) && who != c.collection
      requires |amounts| == c.N()
      requires forall p :: 1 <= p <= c.N() ==> Bal(View().free, c.At(p).iou, who) == 0
      requires forall i :: 0 <= i < |calls| ==> !calls[i].SpendsFrom(c.collection)
      requires forall i :: 0 <= i < |order| ==> 1 <= order[i] <= c.N()
      requires forall p :: 1 <= p <= c.N() ==> p in order
      modifies this`phase, this`used, this`left, this`unreleased, this`accountShares, this`circulation
      modifies this`paused, this`everPaused, this`lastBonusTime, assets`free, assets`issuance
      ensures |trace| == |calls| + 1 && trace[0] == old(View())
      ensures forall k :: 0 <= k < |calls| ==> Inv(c, trace[k]) && Step(c, calls[k], trace[k], trace[k + 1])
      ensures OwnClaim(c, calls, trace, who, amounts) ==>
        r.Done? && Bal(View().free, c.collected, who) >= Bal(old(View()).free, c.collected, who)
    {
      ghost var s := View();
      hide *;
      GenesisClaims(c, s, who);
      GenesisIsLawful(c, s);
      ghost var times, ends;
      trace, times, ends := Run(calls);
      DidAllSteps(c, calls, trace, times, ends);
      ghost var t := View();
      var open := Call.SetPaused(false);
      assert !open.SpendsFrom(c.collection) by { OnlySwitches(c.collection); }
      r := Dispatch(open);
      ghost var o := View();
      StepKeepsInv(c, open, t, o);
      assert !o.paused by { Opened(c, t, o, r); }
      PausedIs();
      r := TakeBack(who, amounts, order);
      if OwnClaim(c, calls, trace, who, amounts) { TakenBackInTheEnd(c, calls, trace, s, t, o, View(), who, amounts); }
    }

    lemma OnlySwitches(u: AccountId)
      ensures !Call.SetPaused(false).SpendsFrom(u)
    {
    }

    /** The whole story.  From genesis, through any calls of anybody, an account that every one of them
        spares gets out once root lets the module run: what it had of the collected asset
        is back, to the last unit, and no shares, IOUs or packs are left behind. */
    static method StakeAndLeave(c: Config, assets: Assets, now: nat, calls: seq<Call>, who: AccountId, order: seq<nat>)
      returns (m: SavingModule, ghost trace: seq<State>, r: Outcome)
      requires assets.Valid() && assets.Settled() && c.WellFormed() && who != c.collection
      requires assets.Usable(c.share) && assets.Usable(c.collected)
      requires assets.Usable(c.reservedAsset) && assets.Usable(c.profitAsset)
      requires forall i :: 0 <= i < c.N() ==> assets.Usable(c.phases[i].iou)
      requires assets.Issued(c.share) == 0
      requires forall i :: 0 <= i < c.N() ==> assets.Issued(c.phases[i].iou) == 0
      requires forall i :: 0 <= i < |calls| ==> !calls[i].SpendsFrom(c.collection)
      requires forall i :: 0 <= i < |order| ==> 1 <= order[i] <= c.N()
      requires forall p :: 1 <= p <= c.N() ==> p in order
      modifies assets`free, assets`issuance
      ensures |trace| == |calls| + 1 && Genesis(c, trace[0]) && trace[0].free == old(assets.free)
      ensures forall k :: 0 <= k < |calls| ==> Inv(c, trace[k]) && Step(c, calls[k], trace[k], trace[k + 1])
      ensures fresh(m) && m.assets == assets
      ensures (SparedBy(c, calls, trace, who) ==> r.Done? && GotOut(c, trace[0], m.View(), who))
    {
      m := new SavingModule(c, assets, now);
      assert Genesis(c, m.View());
      hide *;
      trace, r := m.RunAndLeave(calls, who, order);
    }

    /** The other half of it.  Whatever anybody else does, and whatever the account is sent, what it staked by
        its own calls is there to be taken back: it ends with at least what it had. */
    static method StakeAndTakeBack(c: Config, assets: Assets, now: nat, calls: seq<Call>, who: AccountId,
                                   amounts: seq<nat>, order: seq<nat>)
      returns (m: SavingModule, ghost trace: seq<State>, r: Outcome)
      requires assets.Valid() && assets.Settled() && c.WellFormed() && who != c.collection && |amounts| == c.N()
      requires assets.Usable(c.share) && assets.Usable(c.collected)
      requires assets.Usable(c.reservedAsset) && assets.Usable(c.profitAsset)
      requires forall i :: 0 <= i < c.N() ==> assets.Usable(c.phases[i].iou)
      requires assets.Issued(c.share) == 0
      requires forall i :: 0 <= i < c.N() ==> assets.Issued(c.phases[i].iou) == 0
      requires forall i :: 0 <= i < |calls| ==> !calls[i].SpendsFrom(c.collection)
      requires forall i :: 0 <= i < |order| ==> 1 <= order[i] <= c.N()
      requires forall p :: 1 <= p <= c.N() ==> p in order
      modifies assets`free, assets`issuance
      ensures |trace| == |calls| + 1 && Genesis(c, trace[0]) && trace[0].free == old(assets.free)
      ensures forall k :: 0 <= k < |calls| ==> Inv(c, trace[k]) && Step(c, calls[k], trace[k], trace[k + 1])
      ensures fresh(m) && m.assets == assets
      ensures OwnClaim(c, calls, trace, who, amounts) ==>
        r.Done? && Bal(assets.free, c.collected, who) >= Bal(old(assets.free), c.collected, who)
    {
      m := new SavingModule(c, assets, now);
      assert Genesis(c, m.View());
      forall p | 1 <= p <= c.N() ensures Bal(m.View().free, c.At(p).iou, who) == 0 { assets.Bounded(c.At(p).iou, who); }
      assert m.View().free == assets.free;
      hide *;
      trace, r := m.RunAndTakeBack(calls, who, amounts, order);
      m.FreeIs();
    }

    lemma FreeIs()
      ensures View().free == assets.free
    {
    }
  }
}
