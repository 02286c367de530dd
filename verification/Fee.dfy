/** Transaction fees: rio-transaction-payment charges them in RFUEL, after rio-fee has bought what
    it can out of the payer's locked RFUEL; the fee ends up in rio-fee's account. */
module FeePallet {
  import opened Primitives
  import opened Books
  import opened Ledger

  const RFUEL: AssetId := 0
  const LOCKED_RFUEL: AssetId := 1

  /** The two fee assets together. */
  function Fuel(b: Book, u: AccountId): nat { Bal(b, RFUEL, u) + Bal(b, LOCKED_RFUEL, u) }

  function FuelIssued(issuance: map<AssetId, nat>): nat { Get(issuance, RFUEL) + Get(issuance, LOCKED_RFUEL) }

  /** `spent` of `who`'s locked RFUEL became RFUEL, and `fee` RFUEL went to the fee account. */
  ghost predicate Charged(b: Book, b': Book, who: AccountId, account: AccountId, spent: nat, fee: nat)
  {
    forall a, u :: Bal(b', a, u) == Bal(b, a, u)
      - (if a == LOCKED_RFUEL && u == who then spent else 0) + (if a == RFUEL && u == who then spent else 0)
      - (if a == RFUEL && u == who then fee else 0) + (if a == RFUEL && u == account then fee else 0)
  }

  /** A completed charge lowers the payer's combined holding by exactly the fee, and raises the
      fee account's by as much; nobody else's changes. */
  lemma ChargedFuel(b: Book, b': Book, who: AccountId, account: AccountId, spent: nat, fee: nat)
    requires Charged(b, b', who, account, spent, fee)
    ensures forall u :: Fuel(b', u) == Fuel(b, u) - (if u == who then fee else 0) + (if u == account then fee else 0)
    ensures forall a, u :: a != RFUEL && a != LOCKED_RFUEL ==> Bal(b', a, u) == Bal(b, a, u)
  {
    forall u ensures Fuel(b', u) == Fuel(b, u) - (if u == who then fee else 0) + (if u == account then fee else 0) {
      assert Bal(b', RFUEL, u) + Bal(b', LOCKED_RFUEL, u) == Fuel(b', u);
    }
  }

  lemma Uncharged(b: Book, who: AccountId, account: AccountId)
    ensures Charged(b, b, who, account, 0, 0)
  {
  }

  /** Buying and paying, one after the other. */
  lemma ChargesAddUp(b: Book, m: Book, b': Book, who: AccountId, account: AccountId, spent: nat, fee: nat)
    requires Charged(b, m, who, account, spent, 0) && Charged(m, b', who, account, 0, fee)
    ensures Charged(b, b', who, account, spent, fee)
  {
  }

  lemma BoughtFuel(b: Book, m: Book, who: AccountId, account: AccountId, spent: nat)
    requires Charged(b, m, who, account, spent, 0)
    ensures forall u :: Bal(m, RFUEL, u) == Bal(b, RFUEL, u) + if u == who then spent else 0
  {
  }

  class Fees {
    const assets: Assets
    const account: AccountId

    constructor (assets: Assets, account: AccountId)
      ensures this.assets == assets && this.account == account
    {
      this.assets, this.account := assets, account;
    }

    /** The books are square, and no token of either asset is alive. */
    ghost predicate Ready()
      reads assets
    {
      assets.Valid() && Clear()
    }

    ghost predicate Clear()
      reads assets
    {
      assets.InRange() && assets.SettledAt(RFUEL) && assets.SettledAt(LOCKED_RFUEL)
    }

    /** What of `who`'s locked RFUEL goes into a fee. */
    function Spent(who: AccountId, fee: nat): nat
      reads assets`free
    {
      if fee <= assets.Free(LOCKED_RFUEL, who) then fee else assets.Free(LOCKED_RFUEL, who)
    }

    /** The ledger exchanges `amount` of `who`'s locked RFUEL. */
    ghost predicate CanBuy(who: AccountId, amount: nat)
      reads assets`free, assets`symbols
    {
      RFUEL in assets.symbols && LOCKED_RFUEL in assets.symbols && assets.Free(RFUEL, who) + amount <= MAX_BALANCE
    }

    /** buy_fee_asset: locked RFUEL into RFUEL, as much as there is, as is needed, and as is
        allowed.  The issuance follows, as far as that of RFUEL goes. */
    method BuyFeeAsset(who: AccountId, amount: nat, maxPayment: nat) returns (r: Outcome, bought: nat)
      requires Ready()
      modifies assets`free, assets`issuance, assets`positive, assets`negative
      ensures Clear() && !r.Aborted?
      ensures var wanted := Min(Min(amount, old(assets.Free(LOCKED_RFUEL, who))), maxPayment);
              && (r.Done? <==> old(CanBuy(who, wanted)))
              && bought == (if r.Done? then wanted else 0)
      ensures Charged(old(assets.free), assets.free, who, account, bought, 0)
      ensures assets.Issued(RFUEL) == Min(MAX_BALANCE, old(assets.Issued(RFUEL)) + bought)
      ensures assets.Issued(LOCKED_RFUEL) == old(assets.Issued(LOCKED_RFUEL)) - bought
      ensures forall a :: a != RFUEL && a != LOCKED_RFUEL ==> assets.Issued(a) == old(assets.Issued(a))
      ensures assets.OutBy(RFUEL, Max(0, old(assets.Issued(RFUEL)) + bought - MAX_BALANCE))
      // square books and an unchanged combined issuance, exactly as long as there is room
      ensures assets.Valid() <==> old(assets.Issued(RFUEL)) + bought <= MAX_BALANCE
      ensures FuelIssued(assets.issuance) == old(FuelIssued(assets.issuance)) <==>
        old(assets.Issued(RFUEL)) + bought <= MAX_BALANCE
    {
      assets.Bounded(LOCKED_RFUEL, who);
      assets.Bounded(RFUEL, who);
      bought := assets.Free(LOCKED_RFUEL, who);
      if amount < bought { bought := amount; }
      if maxPayment < bought { bought := maxPayment; }
      r := assets.MakeTransferBetweenAssets(LOCKED_RFUEL, who, RFUEL, who, false, bought);
      if r.Failed? { bought := 0; }
    }

    /** on_nonzero_unbalanced: the fee is deposited, and the token of the deposit dropped at
        once; the token of the withdrawal is dropped after it.  For a moment issuance counts the
        fee twice, and what does not fit is clipped. */
    method OnNonzeroUnbalanced(fee: Imbalance) returns (r: Outcome)
      requires assets.InRange() && assets.SettledAt(LOCKED_RFUEL) && fee.Negative? && fee.asset == RFUEL
      requires fee.amount <= MAX_BALANCE
      requires Get(assets.positive, RFUEL) == 0 && Get(assets.negative, RFUEL) == fee.amount
      modifies assets`free, assets`issuance, assets`positive, assets`negative
      ensures r == if old(assets.Free(RFUEL, account)) + fee.amount <= MAX_BALANCE then Done else Aborted
      ensures r.Done? ==> Clear() && assets.free == Credited(old(assets.free), RFUEL, account, fee.amount)
      ensures r.Done? ==> assets.Issued(RFUEL) == Min(old(assets.Issued(RFUEL)), MAX_BALANCE - fee.amount)
      ensures r.Done? ==> forall a :: a != RFUEL ==> assets.Issued(a) == old(assets.Issued(a))
      ensures r.Done? ==> forall a :: assets.Gap(a) == old(assets.Gap(a)) + old(assets.Issued(a)) - assets.Issued(a)
    {
      var deposited;
      r, deposited := assets.DepositCreating(RFUEL, account, fee.amount);
      if r.Done? { assets.DropBoth(fee, deposited); }
    }

    /** Takes the fee in RFUEL out of `who`'s balance, and hands it to the fee account. */
    method Charge(who: AccountId, fee: nat, ghost out: int) returns (r: Outcome)
      requires Clear() && assets.OutBy(RFUEL, out) && fee <= MAX_BALANCE
      modifies assets`free, assets`issuance, assets`positive, assets`negative
      ensures r.Failed? <==> old(assets.Free(RFUEL, who)) < fee
      ensures r.Aborted? <==> fee <= old(assets.Free(RFUEL, who))
                              && who != account && old(assets.Free(RFUEL, account)) + fee > MAX_BALANCE
      ensures !r.Aborted? ==>
        Clear() && Charged(old(assets.free), assets.free, who, account, 0, if r.Done? then fee else 0)
      ensures !r.Aborted? ==>
        assets.Issued(RFUEL) == Min(old(assets.Issued(RFUEL)), MAX_BALANCE - if r.Done? then fee else 0)
      ensures !r.Aborted? ==> forall a :: a != RFUEL ==> assets.Issued(a) == old(assets.Issued(a))
      ensures !r.Aborted? ==> assets.OutBy(RFUEL, out + old(assets.Issued(RFUEL)) - assets.Issued(RFUEL))
    {
      var paid;
      r, paid := assets.Withdraw(RFUEL, who, fee, false);
      if r.Done? { r := OnNonzeroUnbalanced(paid); }
    }

    /** `validate`, with the fee as computed elsewhere.  It accepts exactly the payers whose RFUEL
        and locked RFUEL together cover the fee, if the ledger can exchange what is needed and
        credit the fee account, and spends the locked part first.  A payer it turns away may have
        had the locked part converted, and lost nothing.  The books stay square, and the combined
        issuance as it was, exactly if there is room in the issuance of RFUEL to count the spent
        part and the fee on top. */
    method Validate(who: AccountId, fee: nat) returns (r: Outcome)
      requires Ready() && fee <= MAX_BALANCE
      modifies assets`free, assets`issuance, assets`positive, assets`negative
      ensures var spent, fuel := old(Spent(who, fee)), Fuel(old(assets.free), who);
              && (r.Failed? <==> fee > 0 && (!old(CanBuy(who, spent)) || fuel < fee))
              && (r.Aborted? <==> fee > 0 && old(CanBuy(who, spent)) && fee <= fuel
                                  && who != account && old(assets.Free(RFUEL, account)) + fee > MAX_BALANCE)
      ensures !r.Aborted? ==> Clear()
      ensures !r.Aborted? ==>
        var spent := if old(CanBuy(who, Spent(who, fee))) then old(Spent(who, fee)) else 0;
        var paid := if r.Done? then fee else 0;
        && Charged(old(assets.free), assets.free, who, account, spent, paid)
        && (assets.Valid() <==> old(assets.Issued(RFUEL)) + spent + paid <= MAX_BALANCE)
        && (FuelIssued(assets.issuance) == old(FuelIssued(assets.issuance)) <==>
              old(assets.Issued(RFUEL)) + spent + paid <= MAX_BALANCE)
        && assets.Issued(RFUEL) == Min(old(assets.Issued(RFUEL)) + spent, MAX_BALANCE - paid)
        && assets.Issued(LOCKED_RFUEL) == old(assets.Issued(LOCKED_RFUEL)) - spent
        && forall a :: a != RFUEL && a != LOCKED_RFUEL ==> assets.Issued(a) == old(assets.Issued(a))
    {
      assert assets.Valid() && Clear();
      hide Assets.Valid, Assets.Gap, Assets.InRange, Clear, Charged, CanBuy, Fuel;
      if fee == 0 { Uncharged(assets.free, who, account); return Done; }
      r := PayFee(who, fee);
    }

    /** A fee that is not zero. */
    method PayFee(who: AccountId, fee: nat) returns (r: Outcome)
      requires Ready() && 0 < fee <= MAX_BALANCE
      modifies assets`free, assets`issuance, assets`positive, assets`negative
      ensures var spent, fuel := old(Spent(who, fee)), Fuel(old(assets.free), who);
              && (r.Failed? <==> !old(CanBuy(who, spent)) || fuel < fee)
              && (r.Aborted? <==> old(CanBuy(who, spent)) && fee <= fuel
                                  && who != account && old(assets.Free(RFUEL, account)) + fee > MAX_BALANCE)
      ensures !r.Aborted? ==> Clear()
      ensures !r.Aborted? ==>
        var spent := if old(CanBuy(who, Spent(who, fee))) then old(Spent(who, fee)) else 0;
        var paid := if r.Done? then fee else 0;
        && Charged(old(assets.free), assets.free, who, account, spent, paid)
        && (assets.Valid() <==> old(assets.Issued(RFUEL)) + spent + paid <= MAX_BALANCE)
        && assets.Issued(RFUEL) == Min(old(assets.Issued(RFUEL)) + spent, MAX_BALANCE - paid)
        && assets.Issued(LOCKED_RFUEL) == old(assets.Issued(LOCKED_RFUEL)) - spent
        && forall a :: a != RFUEL && a != LOCKED_RFUEL ==> assets.Issued(a) == old(assets.Issued(a))
    {
      ghost var b, issued := assets.free, assets.issuance;
      hide Assets.Valid, Assets.Gap, Assets.InRange, Assets.OutBy, Clear, Charged, CanBuy;
      var spent;
      r, spent := BuyFeeAsset(who, fee, MAX_BALANCE);
      if !r.Done? { return; }
      ghost var m, out := assets.free, Max(0, Get(issued, RFUEL) + spent - MAX_BALANCE);
      assert Fuel(b, who) >= fee <==> assets.Free(RFUEL, who) >= fee by { BoughtFuel(b, m, who, account, spent); }
      r := Charge(who, fee, out);
      if !r.Aborted? {
        ChargesAddUp(b, m, assets.free, who, account, spent, if r.Done? then fee else 0);
        Square(out + Min(MAX_BALANCE, Get(issued, RFUEL) + spent) - assets.Issued(RFUEL));
      }
    }

    lemma Square(out: int)
      requires Clear() && assets.OutBy(RFUEL, out)
      ensures assets.Valid() <==> out == 0
    {
      assert assets.Gap(RFUEL) == out;
    }
  }

  /** RFUEL issued to the limit, all of it in one account. */
  method AllFuelInOne() returns (fees: Fees)
    ensures fees.Ready() && RFUEL in fees.assets.symbols && LOCKED_RFUEL in fees.assets.symbols && fees.account == 2
    ensures fees.assets.Issued(RFUEL) == MAX_BALANCE && fees.assets.Issued(LOCKED_RFUEL) == 0
    ensures forall a, u :: Bal(fees.assets.free, a, u) == if a == RFUEL && u == 1 then MAX_BALANCE else 0
    ensures fresh(fees.assets)
  {
    var p := Permissions(Nobody, Nobody, Nobody);
    var assets := new Assets(0);
    var r := assets.CreateAsset(RFUEL, 1, MAX_BALANCE, p);
    r := assets.CreateAsset(LOCKED_RFUEL, 1, 0, p);
    assert forall a, u :: Bal(assets.free, a, u) == assets.Free(a, u);
    fees := new Fees(assets, 2);
  }

  /** A fee of one unit out of it: paid in full, and one unit of issuance is gone. */
  method ClippedFee() returns (fees: Fees, r: Outcome)
    ensures r.Done? && !fees.assets.Valid() && FuelIssued(fees.assets.issuance) == MAX_BALANCE - 1
    ensures Fuel(fees.assets.free, 1) == MAX_BALANCE - 1 && Fuel(fees.assets.free, 2) == 1
  {
    fees := AllFuelInOne();
    ghost var b := fees.assets.free;
    assert Fuel(b, 1) == MAX_BALANCE && Fuel(b, 2) == 0;
    r := fees.Validate(1, 1);
    ChargedFuel(b, fees.assets.free, 1, 2, 0, 1);
  }
}
