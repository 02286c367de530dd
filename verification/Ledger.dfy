/** rio-assets: the multi-asset ledger, its low-level balance operations, and
    the imbalance tokens whose drop squares up the issuance afterwards. */
module Ledger {
  import opened Primitives
  import opened Books

  datatype Owner = Nobody | Address(account: AccountId)

  datatype Permissions = Permissions(update: Owner, mint: Owner, burn: Owner)

  /** A move-only token: balances and issuance of `asset` differ by `amount`
      until it is dropped.  `Positive` says balances were raised, `Negative`
      that they were lowered (or issuance was raised). */
  datatype Imbalance =
    | Positive(asset: AssetId, amount: nat)
    | Negative(asset: AssetId, amount: nat)
  {
    function Value(): int { (if Positive? then amount else -(amount as int)) as int }

    function Split(x: nat): (r: (Imbalance, Imbalance))
      ensures r.0.asset == r.1.asset == asset && r.0.Positive? == r.1.Positive? == Positive?
      ensures r.0.Value() + r.1.Value() == Value()
      ensures r.0.amount <= x && (r.1.amount > 0 ==> r.0.amount == x)
    {
      var first := if amount <= x then amount else x;
      var second := amount - first;
      if Positive? then (Positive(asset, first), Positive(asset, second))
      else (Negative(asset, first), Negative(asset, second))
    }
  }

  class Assets {
    const root: AccountId
    var symbols: set<AssetId>
    var restricted: set<AssetId>              // assets carrying the Transferable restriction
    var permissions: map<AssetId, Permissions>
    var issuance: map<AssetId, nat>
    var free: Book
    var reserved: Book

    // What the live imbalance tokens of each asset add up to.
    ghost var positive: map<AssetId, nat>
    ghost var negative: map<AssetId, nat>

    constructor (root: AccountId)
      ensures Valid() && Settled() && this.root == root
      ensures symbols == {} && restricted == {} && permissions == map[]
      ensures issuance == map[] && free == map[] && reserved == map[]
    {
      this.root := root;
      symbols, restricted, permissions := {}, {}, map[];
      issuance, free, reserved := map[], map[], map[];
      positive, negative := map[], map[];
    }

    function Free(a: AssetId, u: AccountId): nat reads this`free { Bal(free, a, u) }

    function Issued(a: AssetId): nat reads this`issuance { Get(issuance, a) }

    /** How far the balances of an asset are ahead of what issuance and live tokens explain. */
    ghost function Gap(a: AssetId): int
      reads this
    {
      Total(free, a) + Total(reserved, a) + Get(negative, a) - Get(issuance, a) - Get(positive, a)
    }

    ghost predicate InRange()
      reads this
    {
      && (forall a :: Get(issuance, a) <= MAX_BALANCE)
      && (forall a, u :: Bal(free, a, u) <= MAX_BALANCE)
      && (forall a, u :: Bal(reserved, a, u) <= MAX_BALANCE)
    }

    /** The ledger law, at every point of every call. */
    ghost predicate Valid()
      reads this
    {
      InRange() && forall a :: Gap(a) == 0
    }

    /** The books are out by `n` of asset `a`, and square otherwise. */
    ghost predicate OutBy(a: AssetId, n: int)
      reads this
    {
      forall b :: Gap(b) == if b == a then n else 0
    }

    /** No imbalance token of an asset is alive. */
    ghost predicate SettledAt(a: AssetId)
      reads this`positive, this`negative
    {
      Get(positive, a) == 0 && Get(negative, a) == 0
    }

    ghost predicate Settled()
      reads this`positive, this`negative
    {
      forall a :: SettledAt(a)
    }

    /** `asset` is an ordinary, transferable asset the root account mints and burns. */
    ghost predicate Usable(a: AssetId)
      reads this`symbols, this`restricted, this`permissions
    {
      && a in symbols && a !in restricted && a in permissions
      && permissions[a].mint == Address(root) && permissions[a].burn == Address(root)
    }

    lemma Bounded(a: AssetId, u: AccountId)
      requires Valid() && SettledAt(a)
      ensures Total(free, a) + Total(reserved, a) == Issued(a)
      ensures Free(a, u) <= Issued(a) <= MAX_BALANCE
    {
      assert Gap(a) == 0;
      BalInTotal(free, a, u);
    }

    // ------------------------------------------------------------ low-level writes

    method SetFree(a: AssetId, u: AccountId, v: nat)
      requires v <= MAX_BALANCE
      requires InRange()
      modifies this`free
      ensures free == Put(old(free), a, u, v) && InRange()
      ensures Gap(a) == old(Gap(a)) - old(Free(a, u)) + v
      ensures forall a' :: a' != a ==> Gap(a') == old(Gap(a'))
    {
      PutTotal(free, a, u, v);
      free := Put(free, a, u, v);
    }

    method SetReserved(a: AssetId, u: AccountId, v: nat)
      requires v <= MAX_BALANCE
      requires InRange()
      modifies this`reserved
      ensures reserved == Put(old(reserved), a, u, v) && InRange()
      ensures Gap(a) == old(Gap(a)) - old(Bal(reserved, a, u)) + v
      ensures forall a' :: a' != a ==> Gap(a') == old(Gap(a'))
    {
      PutTotal(reserved, a, u, v);
      reserved := Put(reserved, a, u, v);
    }

    // ------------------------------------------------------------ public operations

    method CreateAsset(a: AssetId, from: AccountId, initial: nat, p: Permissions) returns (r: Outcome)
      requires Valid() && initial <= MAX_BALANCE
      modifies this`symbols, this`permissions, this`issuance, this`free
      ensures r.Done? <==> a !in old(symbols)
      ensures r.Done? ==>
        && symbols == old(symbols) + {a} && permissions == old(permissions)[a := p]
        && Issued(a) == initial && Free(a, from) == initial
        && (forall a', u :: a' != a || u != from ==> Free(a', u) == old(Free(a', u)))
        && (forall a' :: a' != a ==> Issued(a') == old(Issued(a')))
      ensures !r.Done? ==>
        r.Failed? && symbols == old(symbols) && permissions == old(permissions)
        && issuance == old(issuance) && free == old(free)
      // the insertions overwrite; the books stay square for an id never used before
      ensures Valid() <==> (r.Done? ==> old(Issued(a)) == old(Free(a, from)))
    {
      if a in symbols { return Failed("AssetId is exist."); }
      issuance := With(issuance, a, initial);
      SetFree(a, from, initial);
      permissions := permissions[a := p];
      symbols := symbols + {a};
      assert Gap(a) == old(Issued(a)) - old(Free(a, from)) by { assert old(Gap(a)) == 0; }
      forall a' | a' != a ensures Gap(a') == 0 { assert Gap(a') == old(Gap(a')); }
      return Done;
    }

    method MakeTransfer(a: AssetId, from: AccountId, to: AccountId, amount: nat) returns (r: Outcome)
      requires Valid()
      modifies this`free
      ensures r.Failed? <==> a !in symbols || Bal(old(free), a, from) < amount || a in restricted
      ensures r.Failed? ==> free == old(free)
      ensures r.Done? ==> amount <= Bal(old(free), a, from)
                          && free == Moved(old(free), a, from, to, amount)
      ensures r.Done? || r.Failed? ==> Valid()
      // with no token of the asset alive, crediting the receiver cannot overflow
      ensures SettledAt(a) ==> !r.Aborted?
    {
      if a !in symbols { return Failed("AssetId is not exist."); }
      if Free(a, from) < amount { return Failed("balance too low to send amount"); }
      if a in restricted { return Failed("The asset is restricted for this action."); }
      if from != to {
        assert Free(a, from) + Free(a, to) <= MAX_BALANCE + Get(positive, a) by {
          TwoBalsInTotal(free, a, from, to);
          assert Gap(a) == 0;
        }
        SetFree(a, from, Free(a, from) - amount);
        if Free(a, to) + amount > MAX_BALANCE { return Aborted; }
        SetFree(a, to, Free(a, to) + amount);
      }
      return Done;
    }

    predicate CheckPermission(owner: Owner, who: AccountId) { owner == Address(who) }

    method MintFree(a: AssetId, who: AccountId, to: AccountId, amount: nat) returns (r: Outcome)
      requires Valid()
      modifies this`free, this`issuance
      ensures Valid() && !r.Aborted?
      ensures r.Done? <==>
        && a in symbols && a in permissions && permissions[a].mint == Address(who)
        && old(Issued(a)) + amount <= MAX_BALANCE && old(Free(a, to)) + amount <= MAX_BALANCE
      ensures r.Done? ==> free == Credited(old(free), a, to, amount)
                          && issuance == With(old(issuance), a, old(Issued(a)) + amount)
      ensures !r.Done? ==> free == old(free) && issuance == old(issuance)
    {
      if a !in symbols { return Failed("AssetId is not exist."); }
      if a !in permissions || !CheckPermission(permissions[a].mint, who) {
        return Failed("The origin does not have permission to mint an asset.");
      }
      if Issued(a) + amount > MAX_BALANCE { return Failed("total_issuance got overflow after minting."); }
      if Free(a, to) + amount > MAX_BALANCE { return Failed("free balance got overflow after minting."); }
      issuance := With(issuance, a, Issued(a) + amount);
      assert forall a' :: Gap(a') == old(Gap(a')) - (if a' == a then amount else 0);
      SetFree(a, to, Free(a, to) + amount);
      return Done;
    }

    method BurnFree(a: AssetId, who: AccountId, from: AccountId, amount: nat) returns (r: Outcome)
      requires Valid()
      modifies this`free, this`issuance
      ensures Valid() && !r.Aborted?
      ensures r.Done? <==>
        && a in symbols && a in permissions && permissions[a].burn == Address(who)
        && amount <= old(Issued(a)) && amount <= old(Free(a, from))
      ensures r.Done? ==> free == Debited(old(free), a, from, amount)
                          && issuance == With(old(issuance), a, old(Issued(a)) - amount)
      ensures !r.Done? ==> free == old(free) && issuance == old(issuance)
    {
      if a !in symbols { return Failed("AssetId is not exist."); }
      if a !in permissions || !CheckPermission(permissions[a].burn, who) {
        return Failed("The origin does not have permission to burn an asset.");
      }
      if Issued(a) < amount { return Failed("total_issuance got underflow after burning"); }
      if Free(a, from) < amount { return Failed("free_balance got underflow after burning"); }
      issuance := With(issuance, a, Issued(a) - amount);
      assert forall a' :: Gap(a') == old(Gap(a')) + (if a' == a then amount else 0);
      SetFree(a, from, Free(a, from) - amount);
      return Done;
    }

    method Reserve(a: AssetId, who: AccountId, amount: nat) returns (r: Outcome)
      requires Valid()
      modifies this`free, this`reserved
      ensures r.Failed? <==> old(Free(a, who)) < amount
      ensures r.Failed? ==> free == old(free) && reserved == old(reserved)
      ensures r.Done? ==> amount <= old(Free(a, who)) && Valid()
                          && free == Debited(old(free), a, who, amount)
                          && reserved == Credited(old(reserved), a, who, amount)
      ensures SettledAt(a) ==> !r.Aborted?
    {
      var reserve, available := Bal(reserved, a, who), Free(a, who);
      if available < amount { return Failed("not enough free funds"); }
      assert available + reserve <= MAX_BALANCE + Get(positive, a) by {
        BalInTotal(free, a, who);
        BalInTotal(reserved, a, who);
        assert Gap(a) == 0;
      }
      if reserve + amount > MAX_BALANCE { return Aborted; }
      SetReserved(a, who, reserve + amount);
      SetFree(a, who, available - amount);
      return Done;
    }

    /** Moves back what it can and says how much it could not. */
    method Unreserve(a: AssetId, who: AccountId, amount: nat) returns (r: Outcome, rest: nat)
      requires Valid()
      modifies this`free, this`reserved
      ensures r.Done? ==>
        var actual := Min(old(Bal(reserved, a, who)), amount);
        && Valid() && rest == amount - actual
        && free == Credited(old(free), a, who, actual)
        && reserved == Debited(old(reserved), a, who, actual)
      ensures SettledAt(a) ==> r.Done?
    {
      var b := Bal(reserved, a, who);
      var actual := if b <= amount then b else amount;
      assert Free(a, who) + b <= MAX_BALANCE + Get(positive, a) by {
        BalInTotal(free, a, who);
        BalInTotal(reserved, a, who);
        assert Gap(a) == 0;
      }
      if Free(a, who) + actual > MAX_BALANCE { return Aborted, 0; }
      SetFree(a, who, Free(a, who) + actual);
      SetReserved(a, who, b - actual);
      return Done, amount - actual;
    }

    // ------------------------------------------------------------ Currency over one asset

    /** Raises issuance, as far as it goes, against a negative token. */
    method Issue(a: AssetId, amount: nat) returns (token: Imbalance)
      requires Valid()
      modifies this`issuance, this`negative
      ensures Valid()
      ensures token == Negative(a, Min(amount, MAX_BALANCE - old(Issued(a))))
      ensures issuance == With(old(issuance), a, old(Issued(a)) + token.amount)
      ensures negative == With(old(negative), a, Get(old(negative), a) + token.amount)
    {
      var x := if Issued(a) + amount <= MAX_BALANCE then amount else MAX_BALANCE - Issued(a);
      issuance := With(issuance, a, Issued(a) + x);
      negative := With(negative, a, Get(negative, a) + x);
      assert forall a' :: Gap(a') == old(Gap(a'));
      return Negative(a, x);
    }

    method Withdraw(a: AssetId, who: AccountId, value: nat, forTransfer: bool) returns (r: Outcome, token: Imbalance)
      requires InRange()
      modifies this`free, this`negative
      ensures InRange() && !r.Aborted? && forall a' :: Gap(a') == old(Gap(a'))
      ensures r.Done? <==> value <= old(Free(a, who)) && !(forTransfer && a in restricted)
      ensures r.Done? ==> token == Negative(a, value)
                          && free == Debited(old(free), a, who, value)
                          && negative == With(old(negative), a, Get(old(negative), a) + value)
      ensures !r.Done? ==> free == old(free) && negative == old(negative)
    {
      token := Negative(a, 0);
      if Free(a, who) < value { return Failed("account has too few funds"), token; }
      if forTransfer && a in restricted { return Failed("The asset is restricted for this action."), token; }
      SetFree(a, who, Free(a, who) - value);
      negative := With(negative, a, Get(negative, a) + value);
      return Done, Negative(a, value);
    }

    /** Sets a free balance outright; the token says which way it went. */
    method MakeFreeBalanceBe(a: AssetId, who: AccountId, balance: nat) returns (token: Imbalance)
      requires InRange() && balance <= MAX_BALANCE
      modifies this`free, this`positive, this`negative
      ensures InRange() && (forall a' :: Gap(a') == old(Gap(a'))) && free == Put(old(free), a, who, balance)
      ensures token.asset == a && token.Value() == balance - old(Free(a, who))
      ensures token.Positive? <==> old(Free(a, who)) <= balance
      ensures positive == (if token.Positive? then With(old(positive), a, Get(old(positive), a) + token.amount)
          else old(positive))
      ensures negative == (if token.Negative? then With(old(negative), a, Get(old(negative), a) + token.amount)
          else old(negative))
    {
      var original := Free(a, who);
      if original <= balance {
        token := Positive(a, balance - original);
        positive := With(positive, a, Get(positive, a) + token.amount);
        assert forall a' :: Gap(a') == old(Gap(a')) - (if a' == a then token.amount else 0);
      } else {
        token := Negative(a, original - balance);
        negative := With(negative, a, Get(negative, a) + token.amount);
        assert forall a' :: Gap(a') == old(Gap(a')) + (if a' == a then token.amount else 0);
      }
      SetFree(a, who, balance);
    }

    method DepositCreating(a: AssetId, who: AccountId, value: nat) returns (r: Outcome, token: Imbalance)
      requires InRange()
      modifies this`free, this`positive, this`negative
      ensures InRange() && forall a' :: Gap(a') == old(Gap(a'))
      ensures r == if old(Free(a, who)) + value <= MAX_BALANCE then Done else Aborted
      ensures r.Done? ==> token == Positive(a, value)
                          && free == Credited(old(free), a, who, value)
                          && positive == With(old(positive), a, Get(old(positive), a) + value)
                          && negative == old(negative)
    {
      if Free(a, who) + value > MAX_BALANCE { return Aborted, Positive(a, 0); }
      token := MakeFreeBalanceBe(a, who, Free(a, who) + value);
      return Done, token;
    }

    // ------------------------------------------------------------ tokens

    /** A token is alive: it is part of the outstanding total of its kind. */
    ghost predicate Alive(token: Imbalance)
      reads this
    {
      token.amount <= Get(if token.Positive? then positive else negative, token.asset)
    }

    /** Drop squares up the issuance.  The addition and the subtraction saturate, and
        what they clip off is exactly what the books are out by afterwards. */
    method Drop(token: Imbalance)
      requires InRange() && Alive(token)
      modifies this`issuance, this`positive, this`negative
      ensures InRange()
      ensures Issued(token.asset) == Min(MAX_BALANCE, Max(0, old(Issued(token.asset)) + token.Value()))
      ensures issuance == With(old(issuance), token.asset, Issued(token.asset))
      ensures positive == if token.Positive?
          then With(old(positive), token.asset, Get(old(positive), token.asset) - token.amount) else old(positive)
      ensures negative == if token.Negative?
          then With(old(negative), token.asset, Get(old(negative), token.asset) - token.amount) else old(negative)
      ensures Gap(token.asset) == old(Gap(token.asset)) + old(Issued(token.asset)) + token.Value() - Issued(token.asset)
      ensures forall a :: a != token.asset ==> Gap(a) == old(Gap(a))
      // a negative token never clips once the positive ones of its asset are gone
      ensures old(Gap(token.asset)) == 0 && token.Negative? && Get(old(positive), token.asset) == 0 ==>
        Gap(token.asset) == 0
    {
      var a, i := token.asset, Issued(token.asset);
      if token.Positive? {
        issuance := With(issuance, a, if i + token.amount <= MAX_BALANCE then i + token.amount else MAX_BALANCE);
        positive := With(positive, a, Get(positive, a) - token.amount);
      } else {
        issuance := With(issuance, a, if token.amount <= i then i - token.amount else 0);
        negative := With(negative, a, Get(negative, a) - token.amount);
      }
    }

    /** Two tokens of a kind into one; the addition saturates.  `subsume` does the same in place. */
    method Merge(s: Imbalance, t: Imbalance) returns (u: Imbalance)
      requires InRange() && s.asset == t.asset && s.Positive? == t.Positive?
      requires s.amount <= MAX_BALANCE && t.amount <= MAX_BALANCE
      requires Alive(if s.Positive? then Positive(s.asset, s.amount + t.amount)
          else Negative(s.asset, s.amount + t.amount))
      modifies this`positive, this`negative
      ensures InRange() && Alive(u)
      ensures u.asset == s.asset && u.Positive? == s.Positive? && u.amount == Min(MAX_BALANCE, s.amount + t.amount)
      ensures Gap(s.asset) == old(Gap(s.asset)) + s.Value() + t.Value() - u.Value()
      ensures forall a :: a != s.asset ==> Gap(a) == old(Gap(a))
    {
      var sum := s.amount + t.amount;
      var m := if sum <= MAX_BALANCE then sum else MAX_BALANCE;
      if s.Positive? {
        positive := With(positive, s.asset, Get(positive, s.asset) - sum + m);
        return Positive(s.asset, m);
      } else {
        negative := With(negative, s.asset, Get(negative, s.asset) - sum + m);
        return Negative(s.asset, m);
      }
    }

    /** Opposite tokens cancel; what is left keeps the sign of the larger one. */
    method Offset(p: Imbalance, n: Imbalance) returns (u: Imbalance)
      requires Valid() && p.asset == n.asset && p.Positive? != n.Positive? && Alive(p) && Alive(n)
      modifies this`positive, this`negative
      ensures Valid() && Alive(u)
      ensures u.asset == p.asset && u.Value() == p.Value() + n.Value()
      ensures u.Positive? <==> if p.Positive? then p.amount >= n.amount else p.amount < n.amount
    {
      var a, both := p.asset, if p.amount <= n.amount then p.amount else n.amount;
      positive := With(positive, a, Get(positive, a) - both);
      negative := With(negative, a, Get(negative, a) - both);
      assert forall a' :: Gap(a') == old(Gap(a'));
      if p.amount >= n.amount {
        return if p.Positive? then Positive(a, p.amount - n.amount) else Negative(a, p.amount - n.amount);
      } else {
        return if p.Positive? then Negative(a, n.amount - p.amount) else Positive(a, n.amount - p.amount);
      }
    }

    /** Withdraws `amount` of one asset and deposits as much of another: two live tokens. */
    method Exchange(f: AssetId, from: AccountId, t: AssetId, to: AccountId, forTransfer: bool, amount: nat)
      returns (nag: Imbalance, pos: Imbalance)
      requires InRange() && (from != to || f != t)
      requires amount <= Free(f, from) && !(forTransfer && f in restricted)
      requires Free(t, to) + amount <= MAX_BALANCE
      modifies this`free, this`positive, this`negative
      ensures InRange() && forall a :: Gap(a) == old(Gap(a))
      ensures old(Valid()) ==> Valid()
      ensures nag == Negative(f, amount) && pos == Positive(t, amount)
      ensures free == Credited(Debited(old(free), f, from, amount), t, to, amount)
      ensures forall a :: Get(negative, a) == Get(old(negative), a) + if a == f then amount else 0
      ensures forall a :: Get(positive, a) == Get(old(positive), a) + if a == t then amount else 0
    {
      var r;
      r, nag := Withdraw(f, from, amount, forTransfer);
      r, pos := DepositCreating(t, to, amount);
    }

    /** The tokens of an exchange are dropped when its block ends, the one declared last first. */
    method DropBoth(nag: Imbalance, pos: Imbalance)
      requires InRange() && nag.Negative? && pos.Positive? && Alive(nag) && Alive(pos)
      modifies this`issuance, this`positive, this`negative
      ensures InRange()
      ensures nag.asset != pos.asset ==> Issued(pos.asset) == Min(MAX_BALANCE, old(Issued(pos.asset)) + pos.amount)
      ensures nag.asset != pos.asset ==> Issued(nag.asset) == Max(0, old(Issued(nag.asset)) - nag.amount)
      ensures nag.asset == pos.asset ==>
        Issued(nag.asset) == Max(0, Min(MAX_BALANCE, old(Issued(pos.asset)) + pos.amount) - nag.amount)
      ensures forall a :: Get(positive, a) == Get(old(positive), a) - if a == pos.asset then pos.amount else 0
      ensures forall a :: Get(negative, a) == Get(old(negative), a) - if a == nag.asset then nag.amount else 0
      ensures forall a :: a != nag.asset && a != pos.asset ==> Issued(a) == old(Issued(a))
      // what the saturating operations clip off is what the books are out by
      ensures nag.asset == pos.asset ==>
        Gap(nag.asset) == old(Gap(nag.asset)) + old(Issued(nag.asset)) + pos.amount - nag.amount - Issued(nag.asset)
      ensures nag.asset != pos.asset ==>
        && Gap(pos.asset) == old(Gap(pos.asset)) + old(Issued(pos.asset)) + pos.amount - Issued(pos.asset)
        && Gap(nag.asset) == old(Gap(nag.asset)) + old(Issued(nag.asset)) - nag.amount - Issued(nag.asset)
      ensures forall a :: a != nag.asset && a != pos.asset ==> Gap(a) == old(Gap(a))
      ensures old(Valid()) && pos.asset != nag.asset && nag.amount <= old(Issued(nag.asset)) ==>
        OutBy(pos.asset, Max(0, old(Issued(pos.asset)) + pos.amount - MAX_BALANCE))
      ensures old(Valid()) && Get(positive, nag.asset) == 0 && nag.amount <= MAX_BALANCE ==>
        (Valid() <==> old(Issued(pos.asset)) + pos.amount <= MAX_BALANCE)
    {
      hide Gap, InRange;
      Drop(pos);
      assert old(Valid()) ==> Gap(pos.asset) == Max(0, old(Issued(pos.asset)) + pos.amount - MAX_BALANCE);
      Drop(nag);
      assert old(Valid()) && Get(positive, nag.asset) == 0 && nag.amount <= MAX_BALANCE ==>
        old(Issued(pos.asset)) + pos.amount > MAX_BALANCE ==> Gap(pos.asset) > 0;
    }

    lemma EnoughIssued(a: AssetId, u: AccountId, amount: nat)
      requires Valid() && amount <= Free(a, u)
      ensures SettledAt(a) ==> amount <= Issued(a)
    {
      if SettledAt(a) { Bounded(a, u); }
    }

    /** The exchange between two different balances, its tokens dropped. */
    method Swap(f: AssetId, from: AccountId, t: AssetId, to: AccountId, forTransfer: bool, amount: nat)
      requires Valid() && (from != to || f != t)
      requires amount <= Free(f, from) && !(forTransfer && f in restricted) && Free(t, to) + amount <= MAX_BALANCE
      modifies this`free, this`issuance, this`positive, this`negative
      ensures InRange() && free == Credited(Debited(old(free), f, from, amount), t, to, amount)
      ensures f != t ==>
        Issued(t) == Min(MAX_BALANCE, old(Issued(t)) + amount) && Issued(f) == Max(0, old(Issued(f)) - amount)
      ensures forall a :: a != f && a != t ==> Issued(a) == old(Issued(a))
      ensures forall a :: Get(positive, a) == Get(old(positive), a) && Get(negative, a) == Get(old(negative), a)
      ensures old(SettledAt(f)) && f != t ==> OutBy(t, Max(0, old(Issued(t)) + amount - MAX_BALANCE))
      ensures old(SettledAt(f)) ==> (Valid() <==> old(Issued(t)) + amount <= MAX_BALANCE)
    {
      EnoughIssued(f, from, amount);
      assert InRange();
      hide Valid, Gap, InRange, OutBy;
      var nag, pos := Exchange(f, from, t, to, forTransfer, amount);
      assert nag.amount == pos.amount && Alive(nag) && Alive(pos);
      hide Alive, Credited, Debited;
      DropBoth(nag, pos);
    }

    method MakeTransferBetweenAssets(f: AssetId, from: AccountId, t: AssetId, to: AccountId,
                                     forTransfer: bool, amount: nat) returns (r: Outcome)
      requires Valid()
      modifies this`free, this`issuance, this`positive, this`negative
      ensures InRange() && !r.Aborted?
      ensures r.Failed? <==>
        || f !in symbols || t !in symbols || old(Free(f, from)) < amount
        || old(Free(t, to)) + amount > MAX_BALANCE || (forTransfer && f in restricted)
      ensures r.Failed? ==> free == old(free) && issuance == old(issuance)
      ensures r.Done? ==> amount <= old(Free(f, from))
      ensures r.Done? ==>
        free == if from == to && f == t then old(free) else Credited(Debited(old(free), f, from, amount), t, to, amount)
      ensures r.Done? && f != t ==> Issued(t) == Min(MAX_BALANCE, old(Issued(t)) + amount)
                                    && Issued(f) == Max(0, old(Issued(f)) - amount)
      ensures forall a :: a != f && a != t ==> Issued(a) == old(Issued(a))
      ensures forall a :: Get(positive, a) == Get(old(positive), a) && Get(negative, a) == Get(old(negative), a)
      ensures old(SettledAt(f)) && r.Done? && f != t ==> OutBy(t, Max(0, old(Issued(t)) + amount - MAX_BALANCE))
      // the ledger law survives exactly when the issuance has room for the new asset
      ensures old(SettledAt(f)) && (r.Failed? || (from == to && f == t)) ==> Valid()
      ensures old(SettledAt(f)) && r.Done? && (from != to || f != t) ==>
        (Valid() <==> old(Issued(t)) + amount <= MAX_BALANCE)
    {
      if f !in symbols || t !in symbols { return Failed("AssetId is not exist."); }
      if Free(f, from) < amount { return Failed("balance too low to send amount"); }
      if Free(t, to) + amount > MAX_BALANCE { return Failed("balance too height to receive amount"); }
      if forTransfer && f in restricted { return Failed("The asset is restricted for this action."); }
      if from != to || f != t {
        Swap(f, from, t, to, forTransfer, amount);
      }
      return Done;
    }
  }

  /** An exchange that leaves the books out: one unit of asset 1 for one of asset 0, which is issued to the limit. */
  method ClippedExchange() returns (assets: Assets, r: Outcome)
    ensures r.Done? && !assets.Valid() && assets.OutBy(0, 1)
  {
    var p := Permissions(Nobody, Nobody, Nobody);
    assets := new Assets(0);
    r := assets.CreateAsset(0, 1, MAX_BALANCE, p);
    r := assets.CreateAsset(1, 2, 1, p);
    r := assets.MakeTransferBetweenAssets(1, 2, 0, 2, false, 1);
  }
}
