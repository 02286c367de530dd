/** rio-bridge: deposits of outside transactions, held back until their account is marked, and
    withdrawals through a vault.  The module's pause switch is never consulted. */
module BridgePallet {
  import opened Primitives
  import opened Books
  import opened Ledger
  import opened BridgeModel

  datatype Auth = All | DepositAuth | WithdrawAuth | RefundAuth | MarkAuth

  datatype Call =
    | MakeDeposit(author: AccountId, account: AccountId, amount: nat, hash: TxHash)
    | MarkWhite(author: AccountId, account: AccountId)
    | MarkBlack(author: AccountId, account: AccountId)
    | Withdraw(author: AccountId, who: AccountId, amount: nat)
    | Refund(author: AccountId, who: AccountId, amount: nat)
    | WithdrawFinish(author: AccountId, who: AccountId, amount: nat)
    | Transfer(asset: AssetId, from: AccountId, to: AccountId, amount: nat)
  {
    /** A call that takes from `u`: a transfer signed by `u`, or a withdrawal on its behalf, which an
        authorised author orders without `u`. */
    predicate Drains(u: AccountId)
    {
      match this
      case Withdraw(_, who, _) => u == who
      case Transfer(_, from, _, _) => u == from
      case _ => false
    }
  }

  class Bridge {
    const asset: AssetId
    const vault: AccountId
    const threshold: nat
    const admins: map<AccountId, Auth>
    const assets: Assets

    var marks: map<AccountId, Mark>
    var held: map<AccountId, seq<Deposit>>
    var history: map<TxHash, Deposit>
    var withdraws: map<AccountId, seq<nat>>
    ghost var minted: seq<Deposit>
    ghost var mintBase: nat
    ghost var finished: nat
    ghost var vaultBase: int

    ghost function View(): State
      reads this, assets
    {
      State(assets.free, assets.issuance, marks, held, history, withdraws, minted, mintBase, finished, vaultBase)
    }

    ghost predicate Setup()
      reads assets`symbols, assets`restricted, assets`permissions, assets`positive, assets`negative
    {
      assets.Settled() && assets.Usable(asset)
    }

    constructor (asset: AssetId, vault: AccountId, threshold: nat, admins: map<AccountId, Auth>, assets: Assets)
      requires assets.Valid() && assets.Settled() && assets.Usable(asset)
      ensures this.asset == asset && this.vault == vault && this.assets == assets && this.admins == admins
      ensures Setup() && assets.Valid() && Laws(asset, vault, View()) && history == map[] && minted == []
    {
      this.asset, this.vault, this.threshold, this.admins, this.assets := asset, vault, threshold, admins, assets;
      marks, held, history, withdraws := map[], map[], map[], map[];
      minted, mintBase, finished, vaultBase := [], assets.Issued(asset), 0, assets.Free(asset, vault);
      new;
      assert Sums(this.withdraws) == map[];
    }

    predicate HasAuth(who: AccountId, auth: Auth) { who in admins && (admins[who] == All || admins[who] == auth) }

    // ------------------------------------------------------------ what each call does

    ghost predicate Step(call: Call, s: State, t: State, r: Outcome)
    {
      match call
      case MakeDeposit(author, account, amount, hash) => Deposited(s, t, author, Deposit(account, hash, amount), r)
      case MarkWhite(author, account) => Whitened(s, t, author, account, r)
      case MarkBlack(author, account) => Blackened(s, t, author, account, r)
      case Withdraw(author, who, amount) => Withdrawn(s, t, author, who, amount, r)
      case Refund(author, who, amount) => Refunded(s, t, author, who, amount, r)
      case WithdrawFinish(author, who, amount) => Finished(s, t, author, who, amount, r)
      case Transfer(a, from, to, amount) =>
        && (a == asset ==> (r.Done? <==> amount <= Bal(s.free, asset, from)))
        && (r.Done? ==> Moves(s, t, a, from, to, amount))
        && (!r.Done? ==> t.free == s.free && t.issuance == s.issuance) && Apart(s, t, true, true)
    }

    /** Nothing but balances and issuance differs, as far as the lists concerned are to be as they were. */
    ghost predicate Apart(s: State, t: State, deposits: bool, withdrawals: bool)
    {
      && (deposits ==> t.marks == s.marks && t.held == s.held && t.history == s.history && t.minted == s.minted)
      && (withdrawals ==> t.withdraws == s.withdraws && t.finished == s.finished)
    }

    /** Whoever may deposit has a new transaction recorded.  One of at least the threshold waits, unless its account
        is marked white; any other is minted to the account, as far as the issuance has room. */
    ghost predicate Deposited(s: State, t: State, author: AccountId, d: Deposit, r: Outcome)
    {
      var waits := d.amount >= threshold && (d.account in s.marks ==> s.marks[d.account] == Black);
      var room := s.Issued(asset) + d.amount <= MAX_BALANCE;
      if author in admins && admins[author] in {All, DepositAuth} && d.hash !in s.history then
        && t.history == s.history[d.hash := d] && t.marks == s.marks && Apart(s, t, false, true)
        && (r.Done? <==> waits || room)
        && (forall u :: t.Held(u) == s.Held(u) + if waits && u == d.account then [d] else [])
        && (if !waits && room then t.minted == s.minted + [d] && Mints(s, t, asset, d.account, d.amount)
            else t.minted == s.minted && t.free == s.free && t.issuance == s.issuance)
      else r.Failed? && t == s
    }

    /** Whoever may mark has the first `done` of the account's deposits minted: all of them, and the account is
        marked, or as many as there is room for. */
    ghost predicate Whitened(s: State, t: State, author: AccountId, account: AccountId, r: Outcome)
    {
      if author in admins && admins[author] in {All, MarkAuth} then exists done :: WhitenedTo(s, t, account, done, r)
      else r.Failed? && t == s
    }

    ghost predicate WhitenedTo(s: State, t: State, account: AccountId, done: nat, r: Outcome)
    {
      && Released(s, t, account, done) && t.history.Keys == s.history.Keys && Apart(s, t, false, true)
      && (if r.Done? then done == |s.Held(account)| && t.marks == s.marks[account := White]
          else NoRoom(s.Issued(asset), s.Held(account), done) && t.marks == s.marks)
    }

    /** Whoever may mark has the account's deposits dropped, and their transactions forgotten. */
    ghost predicate Blackened(s: State, t: State, author: AccountId, account: AccountId, r: Outcome)
    {
      if author in admins && admins[author] in {All, MarkAuth} then
        && r.Done? && t.marks == s.marks[account := Black] && t.minted == s.minted
        && (forall u :: t.Held(u) == if u == account then [] else s.Held(u))
        && (forall h :: h in t.history <==> Remembered(s, account, h))
        && t.free == s.free && t.issuance == s.issuance && Apart(s, t, false, true)
      else r.Failed? && t == s
    }

    ghost predicate Withdrawn(s: State, t: State, author: AccountId, who: AccountId, amount: nat, r: Outcome)
    {
      if author in admins && admins[author] in {All, WithdrawAuth} && amount <= Bal(s.free, asset, who) then
        && r.Done? && Moves(s, t, asset, who, vault, amount) && Apart(s, t, true, false) && t.finished == s.finished
        && forall u :: t.Withdraws(u) == s.Withdraws(u) + if u == who then [amount] else []
      else r.Failed? && t == s
    }

    ghost predicate Refunded(s: State, t: State, author: AccountId, who: AccountId, amount: nat, r: Outcome)
    {
      if author in admins && admins[author] in {All, RefundAuth} && amount in s.Withdraws(who)
          && amount <= Bal(s.free, asset, vault) then
        && r.Done? && StruckOne(s, t, who, amount) && Moves(s, t, asset, vault, who, amount)
        && Apart(s, t, true, false) && t.finished == s.finished
      else r.Failed? && t == s
    }

    ghost predicate Finished(s: State, t: State, author: AccountId, who: AccountId, amount: nat, r: Outcome)
    {
      if author in admins && admins[author] in {All, WithdrawAuth} && amount in s.Withdraws(who) then
        && r.Done? && StruckOne(s, t, who, amount) && t.finished == s.finished + amount
        && t.free == s.free && t.issuance == s.issuance && Apart(s, t, true, false)
      else r.Failed? && t == s
    }

    // ------------------------------------------------------------ ledger steps

    method Mint(to: AccountId, amount: nat) returns (r: Outcome)
      requires Setup() && assets.Valid()
      modifies assets`free, assets`issuance
      ensures assets.Valid() && !r.Aborted?
      ensures r.Done? <==> old(assets.Issued(asset)) + amount <= MAX_BALANCE
      ensures r.Done? ==> Mints(old(View()), View(), asset, to, amount)
      ensures !r.Done? ==> assets.free == old(assets.free) && assets.issuance == old(assets.issuance)
    {
      assets.Bounded(asset, to);
      r := assets.MintFree(asset, assets.root, to, amount);
    }

    method Move(a: AssetId, from: AccountId, to: AccountId, amount: nat) returns (r: Outcome)
      requires Setup() && assets.Valid()
      modifies assets`free
      ensures assets.Valid() && !r.Aborted?
      ensures a == asset ==> (r.Done? <==> amount <= old(assets.Free(a, from)))
      ensures r.Done? ==> amount <= old(assets.Free(a, from)) && Moves(old(View()), View(), a, from, to, amount)
      ensures !r.Done? ==> assets.free == old(assets.free)
    {
      assert assets.SettledAt(a);
      r := assets.MakeTransfer(a, from, to, amount);
    }

    // ------------------------------------------------------------ deposits

    /** Records the transaction and mints its amount.  A mint that fails leaves the record. */
    method SimpleDeposit(account: AccountId, amount: nat, hash: TxHash) returns (r: Outcome)
      requires Setup() && assets.Valid()
      modifies this`history, this`minted, this`vaultBase, assets`free, assets`issuance
      ensures assets.Valid() && !r.Aborted?
      ensures r.Done? <==> old(assets.Issued(asset)) + amount <= MAX_BALANCE
      ensures history == old(history)[hash := Deposit(account, hash, amount)]
      ensures r.Done? ==>
        minted == old(minted) + [Deposit(account, hash, amount)] && Mints(old(View()), View(), asset, account, amount)
      ensures !r.Done? ==>
        minted == old(minted) && assets.free == old(assets.free) && assets.issuance == old(assets.issuance)
      ensures vaultBase == old(vaultBase) + if r.Done? && account == vault then amount else 0
    {
      ghost var s := View();
      hide Mints;
      history := history[hash := Deposit(account, hash, amount)];
      ghost var h := View();
      r := Mint(account, amount);
      ghost var m := View();
      if r.Done? {
        minted := minted + [Deposit(account, hash, amount)];
        if account == vault { vaultBase := vaultBase + amount; }
        StillMints(s, h, m, View(), asset, account, amount);
      }
    }

    predicate Holds(account: AccountId, amount: nat)
      reads this`marks
    {
      amount >= threshold && (account !in marks || marks[account] == Black)
    }

    /** `deposit`: a transaction seen before is refused, whatever became of it. */
    method MakeDeposit(author: AccountId, account: AccountId, amount: nat, hash: TxHash) returns (r: Outcome)
      requires Setup() && assets.Valid() && Laws(asset, vault, View())
      modifies this`held, this`history, this`minted, this`vaultBase, assets`free, assets`issuance
      ensures assets.Valid() && Laws(asset, vault, View()) && !r.Aborted?
      ensures r.Done? <==>
        && hash !in old(history) && author in admins && admins[author] in {All, DepositAuth}
        && ((amount >= threshold && (account !in marks || marks[account] == Black))
            || old(assets.Issued(asset)) + amount <= MAX_BALANCE)
      // an accepted deposit below the threshold, or to an account marked white, is minted at once
      ensures r.Done? && (amount < threshold || (account in marks && marks[account] == White)) ==>
        assets.Free(asset, account) == old(assets.Free(asset, account)) + amount
        && assets.Issued(asset) == old(assets.Issued(asset)) + amount
        && minted == old(minted) + [Deposit(account, hash, amount)] && held == old(held)
      // any other waits, and no balance moves
      ensures r.Done? && amount >= threshold && (account !in marks || marks[account] == Black) ==>
        View().Held(account) == old(View()).Held(account) + [Deposit(account, hash, amount)]
        && minted == old(minted) && assets.free == old(assets.free) && assets.issuance == old(assets.issuance)
      ensures Deposited(old(View()), View(), author, Deposit(account, hash, amount), r)
      ensures vaultBase >= old(vaultBase) && old(minted) <= minted
      // once the author is let in, a new transaction is recorded; if there is no room to mint it, for nothing
      ensures r.Failed? && View() != old(View()) ==> Lost(View(), hash)
      ensures StaysLost(old(View()), View())
    {
      NothingLost(View());
      hide Laws, StaysLost, Lost;
      if hash in history { return Failed("repeated transaction"); }
      if !HasAuth(author, DepositAuth) { return Failed("no deposit auth"); }
      var d := Deposit(account, hash, amount);
      hide Deposited;
      if Holds(account, amount) {
        HoldBack(d, author);
        return Done;
      }
      r := MintAtOnce(d, author);
    }

    method MintAtOnce(d: Deposit, ghost author: AccountId) returns (r: Outcome)
      requires Setup() && assets.Valid() && Laws(asset, vault, View()) && d.hash !in history
      requires !Holds(d.account, d.amount) && HasAuth(author, DepositAuth)
      modifies this`history, this`minted, this`vaultBase, assets`free, assets`issuance
      ensures assets.Valid() && Laws(asset, vault, View()) && Deposited(old(View()), View(), author, d, r)
      ensures r.Done? <==> old(assets.Issued(asset)) + d.amount <= MAX_BALANCE
      ensures r.Done? ==>
        minted == old(minted) + [d] && assets.Free(asset, d.account) == old(assets.Free(asset, d.account)) + d.amount
        && assets.Issued(asset) == old(assets.Issued(asset)) + d.amount
      ensures r.Failed? ==> minted == old(minted) && Lost(View(), d.hash)
      ensures StaysLost(old(View()), View()) && !r.Aborted? && vaultBase >= old(vaultBase)
    {
      ghost var s := View();
      hide Laws, Mints, StaysLost, Lost;
      r := SimpleDeposit(d.account, d.amount, d.hash);
      if r.Done? { MintShows(s, View(), d.account, d.amount); }
      MintedNew(s, View(), d, r);
      DepositLoses(s, View(), d);
      if r.Failed? { FailedIsLost(s, View(), d.hash); }
    }

    lemma MintShows(s: State, t: State, account: AccountId, amount: nat)
      requires Mints(s, t, asset, account, amount)
      ensures Bal(t.free, asset, account) == Bal(s.free, asset, account) + amount
      ensures Get(t.issuance, asset) == Get(s.issuance, asset) + amount
    {
    }

    method HoldBack(d: Deposit, ghost author: AccountId)
      requires Laws(asset, vault, View()) && d.hash !in history && Holds(d.account, d.amount)
      requires HasAuth(author, DepositAuth)
      modifies this`held, this`history
      ensures Laws(asset, vault, View()) && Deposited(old(View()), View(), author, d, Done)
      ensures View().Held(d.account) == old(View()).Held(d.account) + [d]
      ensures StaysLost(old(View()), View())
    {
      ghost var s := View();
      hide Laws, StaysLost;
      history := history[d.hash := d];
      held := held[d.account := (if d.account in held then held[d.account] else []) + [d]];
      HeldMore(s, View(), d);
      DepositLoses(s, View(), d);
    }

    lemma NothingLost(s: State)
      ensures StaysLost(s, s)
    {
    }

    /** A deposit that is new loses no other. */
    lemma DepositLoses(s: State, t: State, d: Deposit)
      requires d.hash !in s.history && t.history == s.history[d.hash := d]
      requires t.minted == s.minted || t.minted == s.minted + [d]
      requires t.held == s.held || t.held == s.held[d.account := s.Held(d.account) + [d]]
      ensures StaysLost(s, t)
    {
      forall u, i | 0 <= i < |t.Held(u)| ensures t.Held(u)[i] in s.Held(u) || t.Held(u)[i].hash !in s.history { }
      forall i | 0 <= i < |t.minted| ensures t.minted[i] in s.minted || t.minted[i].hash !in s.history { }
      LostStays(s, t);
    }

    lemma FailedIsLost(s: State, t: State, h: TxHash)
      requires Laws(asset, vault, s) && h !in s.history && h in t.history && t.minted == s.minted && t.held == s.held
      ensures Lost(t, h)
    {
      assert forall u :: t.Held(u) == s.Held(u);
      RecordedIsLost(asset, s, t, h);
    }

    lemma HeldMore(s: State, t: State, d: Deposit)
      requires Laws(asset, vault, s) && d.hash !in s.history && t.history == s.history[d.hash := d]
      requires t.held == s.held[d.account := s.Held(d.account) + [d]]
      requires t.minted == s.minted && t.free == s.free && t.issuance == s.issuance && t.withdraws == s.withdraws
      requires t.mintBase == s.mintBase && t.finished == s.finished && t.vaultBase == s.vaultBase
      ensures Laws(asset, vault, t)
    {
      HoldMore(s, t, d);
    }

    lemma MintedNew(s: State, t: State, d: Deposit, r: Outcome)
      requires Laws(asset, vault, s) && d.hash !in s.history && t.history == s.history[d.hash := d]
      requires t.held == s.held && t.withdraws == s.withdraws && t.mintBase == s.mintBase && t.finished == s.finished
      requires r.Done? ==> t.minted == s.minted + [d] && Mints(s, t, asset, d.account, d.amount)
      requires !r.Done? ==> t.minted == s.minted && t.free == s.free && t.issuance == s.issuance
      requires t.vaultBase == s.vaultBase + if r.Done? && d.account == vault then d.amount else 0
      ensures Laws(asset, vault, t)
    {
      if r.Done? {
        NeverMinted(s, d.hash);
        MintedMore(s, asset, t, d);
      }
      StillHeld(s, t, d);
    }

    lemma StillHeld(s: State, t: State, d: Deposit)
      requires HeldLaw(s) && d.hash !in s.history && t.history == s.history[d.hash := d] && t.held == s.held
      requires t.minted == s.minted || t.minted == s.minted + [d]
      ensures HeldLaw(t)
    {
      var m := t.(minted := s.minted);
      assert forall u :: m.Held(u) == s.Held(u) && t.Held(u) == s.Held(u);
      DepositsSame(s, m, asset);
      forall u, i | 0 <= i < |t.Held(u)| ensures HeldBack(t, u, i) {
        assert HeldBack(s, u, i);
        OneMoreMinted(s.minted, d, s.Held(u)[i].hash);
      }
      assert forall u :: HashesDistinct(t.Held(u)) by { assert forall u :: HashesDistinct(m.Held(u)); }
    }

    lemma NeverMinted(s: State, h: TxHash)
      requires MintedOnce(asset, s) && h !in s.history
      ensures !WasMinted(s.minted, h)
    {
    }

    /** The first `done` deposits held for `account` were minted, in order, and the others stay held. */
    ghost predicate Released(s: State, t: State, account: AccountId, done: nat)
    {
      && done <= |s.Held(account)| && t.minted == s.minted + s.Held(account)[..done]
      && t.Held(account) == s.Held(account)[done..] && (forall u :: u != account ==> t.Held(u) == s.Held(u))
      && Mints(s, t, asset, account, Amounts(s.Held(account)[..done]))
    }

    /** The issuance has no room for the deposit after the first `done`. */
    ghost predicate NoRoom(issued: nat, list: seq<Deposit>, done: nat)
    {
      done < |list| && issued + Amounts(list[..done]) + list[done].amount > MAX_BALANCE
    }

    /** `mark_white`: the account's held deposits are minted in order.  If one cannot be, it and
        all after it stay held, and the account stays unmarked; `done` says how many were minted. */
    method MarkWhite(author: AccountId, account: AccountId) returns (r: Outcome, done: nat)
      requires Setup() && assets.Valid() && Laws(asset, vault, View())
      modifies this`marks, this`held, this`history, this`minted, this`vaultBase, assets`free, assets`issuance
      ensures assets.Valid() && Laws(asset, vault, View()) && !r.Aborted?
      ensures Released(old(View()), View(), account, done)
      ensures Whitened(old(View()), View(), author, account, r)
      ensures vaultBase >= old(vaultBase)
      ensures history.Keys == old(history).Keys
      ensures StaysLost(old(View()), View())
    {
      ghost var s := View();
      NothingReleased(s, account);
      NothingLost(s);
      hide Laws, Released, StaysLost, NoRoom;
      if !HasAuth(author, MarkAuth) { return Failed("no mark auth"), 0; }
      r, done := Whiten(account);
      ReleaseLoses(s, View(), account, done);
      assert WhitenedTo(s, View(), account, done, r);
    }

    lemma ReleaseLoses(s: State, t: State, account: AccountId, done: nat)
      requires Released(s, t, account, done) && s.history.Keys <= t.history.Keys
      ensures StaysLost(s, t)
    {
      forall i | 0 <= i < |t.minted| ensures t.minted[i] in s.minted || exists u :: t.minted[i] in s.Held(u) {
        if i >= |s.minted| { assert t.minted[i] == s.Held(account)[i - |s.minted|]; }
      }
      forall u, i | 0 <= i < |t.Held(u)| ensures t.Held(u)[i] in s.Held(u) {
        if u == account { assert t.Held(u)[i] == s.Held(u)[done + i]; }
      }
      LostStays(s, t);
    }

    lemma NothingReleased(s: State, account: AccountId)
      ensures Released(s, s, account, 0)
    {
    }

    method Whiten(account: AccountId) returns (r: Outcome, done: nat)
      requires Setup() && assets.Valid() && Laws(asset, vault, View())
      modifies this`marks, this`held, this`history, this`minted, this`vaultBase, assets`free, assets`issuance
      ensures assets.Valid() && Laws(asset, vault, View()) && !r.Aborted?
      ensures Released(old(View()), View(), account, done)
      ensures r.Done? ==> done == |old(View()).Held(account)| && marks == old(marks)[account := White]
      ensures r.Failed? ==> marks == old(marks) && NoRoom(old(View()).Issued(asset), old(View()).Held(account), done)
      ensures vaultBase >= old(vaultBase)
      ensures history.Keys == old(history).Keys
    {
      ghost var s := View();
      var list := if account in held then held[account] else [];
      held := held - {account};
      SameLaws(s, Rest(View(), account, list));
      ghost var h := View();
      hide Laws, NoRoom, Released, MintedSoFar;
      r, done := MintHeld(account, list);
      ghost var m := View();
      PutBack(account, list[done..], r.Done?);
      ReleasedLaw(s, h, m, View(), account, done);
    }

    lemma ReleasedLaw(s: State, h: State, m: State, t: State, account: AccountId, done: nat)
      requires h.held == s.held - {account} && m.held == h.held && done <= |s.Held(account)|
      requires h.minted == s.minted && t.minted == m.minted
      requires t.Held(account) == s.Held(account)[done..] && forall u :: u != account ==> t.Held(u) == m.Held(u)
      requires h.free == s.free && h.issuance == s.issuance && t.free == m.free && t.issuance == m.issuance
      requires MintedSoFar(h, m, account, s.Held(account)[..done])
      ensures Released(s, t, account, done)
    {
      StillMints(s, h, m, t, asset, account, Amounts(s.Held(account)[..done]));
      assert forall u :: u != account ==> m.Held(u) == s.Held(u);
      hide Mints;
    }

    /** The account is marked, or keeps what could not be minted. */
    method PutBack(account: AccountId, rest: seq<Deposit>, marked: bool)
      requires Laws(asset, vault, Rest(View(), account, rest)) && account !in held && (marked ==> rest == [])
      modifies this`marks, this`held
      ensures Laws(asset, vault, View())
      ensures marks == if marked then old(marks)[account := White] else old(marks)
      ensures View().Held(account) == rest && forall u :: u != account ==> View().Held(u) == old(View()).Held(u)
    {
      ghost var m := View();
      if marked {
        marks := marks[account := White];
      } else {
        held := held[account := rest];
      }
      hide Laws;
      SameLaws(Rest(m, account, rest), View());
    }

    /** Some deposits of an account were minted, and nothing else happened. */
    ghost predicate MintedSoFar(s: State, t: State, account: AccountId, done: seq<Deposit>)
    {
      && t.minted == s.minted + done && Mints(s, t, asset, account, Amounts(done))
      && t.history.Keys == s.history.Keys && t.vaultBase >= s.vaultBase
    }

    /** Mints held deposits one by one, as far as the issuance has room. */
    method MintHeld(account: AccountId, list: seq<Deposit>) returns (r: Outcome, i: nat)
      requires Setup() && assets.Valid() && Laws(asset, vault, Rest(View(), account, list))
      modifies this`history, this`minted, this`vaultBase, assets`free, assets`issuance
      ensures assets.Valid() && !r.Aborted? && i <= |list|
      ensures Laws(asset, vault, Rest(View(), account, list[i..]))
      ensures MintedSoFar(old(View()), View(), account, list[..i])
      ensures r.Done? ==> i == |list|
      ensures !r.Done? ==> NoRoom(old(View()).Issued(asset), list, i)
    {
      i := 0;
      ghost var done, rest, s := [], list, View();
      assert list[..0] == done && list[0..] == rest;
      NoneMinted(s, account);
      hide *;
      while i < |list|
        invariant i <= |list| && assets.Valid() && done == list[..i] && rest == list[i..]
        invariant Laws(asset, vault, Rest(View(), account, rest)) && MintedSoFar(s, View(), account, done)
      {
        SliceStep(list, i);
        ghost var m := View();
        r := MintNext(account, list[i..]);
        if !r.Done? { OutOfRoom(s, m, View(), account, list, i); return; }
        MoreMinted(s, m, View(), account, list, i);
        done, rest, i := done + [list[i]], rest[1..], i + 1;
      }
      return Done, i;
    }

    lemma NoneMinted(s: State, account: AccountId)
      ensures MintedSoFar(s, s, account, [])
    {
    }

    lemma MoreMinted(s: State, m: State, t: State, account: AccountId, list: seq<Deposit>, i: nat)
      requires i < |list| && MintedSoFar(s, m, account, list[..i]) && MintedSoFar(m, t, account, [list[i]])
      ensures MintedSoFar(s, t, account, list[..i] + [list[i]])
    {
      SliceStep(list, i);
      OneAmount(list[i]);
      MintsTwice(s, m, t, account, Amounts(list[..i]), list[i].amount);
      assert list[..i] + [list[i]] == list[..i + 1];
    }

    lemma MintsTwice(s: State, m: State, t: State, account: AccountId, x: nat, y: nat)
      requires Mints(s, m, asset, account, x) && Mints(m, t, asset, account, y)
      ensures Mints(s, t, asset, account, x + y)
    {
    }

    lemma OneAmount(d: Deposit)
      ensures Amounts([d]) == d.amount
    {
      assert [d][..0] == [] && Amounts([d]) == Amounts([d][..0]) + d.amount;
    }

    lemma SliceStep(list: seq<Deposit>, i: nat)
      requires i < |list|
      ensures list[i..] != [] && list[i..][0] == list[i] && list[i..][1..] == list[i + 1..]
      ensures list[..i + 1] == list[..i] + [list[i]] && Amounts(list[..i + 1]) == Amounts(list[..i]) + list[i].amount
    {
      assert list[..i + 1][..i] == list[..i];
    }

    lemma OutOfRoom(s: State, m: State, t: State, account: AccountId, list: seq<Deposit>, i: nat)
      requires i < |list| && MintedSoFar(s, m, account, list[..i]) && MintedSoFar(m, t, account, [])
      requires m.Issued(asset) + list[i].amount > MAX_BALANCE
      ensures NoRoom(s.Issued(asset), list, i) && MintedSoFar(s, t, account, list[..i])
    {
    }

    /** The next held deposit of an account whose list was taken out of storage. */
    method MintNext(account: AccountId, rest: seq<Deposit>) returns (r: Outcome)
      requires Setup() && assets.Valid() && rest != [] && Laws(asset, vault, Rest(View(), account, rest))
      modifies this`history, this`minted, this`vaultBase, assets`free, assets`issuance
      ensures assets.Valid() && !r.Aborted?
      ensures r.Done? <==> old(View()).Issued(asset) + rest[0].amount <= MAX_BALANCE
      ensures MintedSoFar(old(View()), View(), account, if r.Done? then [rest[0]] else [])
      ensures Laws(asset, vault, Rest(View(), account, if r.Done? then rest[1..] else rest))
    {
      ghost var m := View();
      FirstOfRest(m, account, rest);
      OneAmount(rest[0]);
      hide Laws, Amounts;
      r := SimpleDeposit(rest[0].account, rest[0].amount, rest[0].hash);
      MintedFirst(m, View(), account, rest, r);
    }

    /** The state with `rest` as what is still held for an account. */
    ghost function Rest(s: State, account: AccountId, rest: seq<Deposit>): State { s.(held := s.held[account := rest]) }

    lemma SameLaws(s: State, t: State)
      requires Laws(asset, vault, s) && forall u :: t.Held(u) == s.Held(u)
      requires t.history == s.history && t.minted == s.minted && t.free == s.free && t.issuance == s.issuance
      requires t.withdraws == s.withdraws && t.mintBase == s.mintBase && t.finished == s.finished
      requires t.vaultBase == s.vaultBase
      ensures Laws(asset, vault, t)
    {
      DepositsSame(s, t, asset);
    }

    lemma FirstOfRest(m: State, account: AccountId, rest: seq<Deposit>)
      requires Laws(asset, vault, Rest(m, account, rest)) && rest != []
      ensures rest[0].account == account && rest[0].hash in m.history
    {
      assert Rest(m, account, rest).Held(account) == rest;
      assert HeldBack(Rest(m, account, rest), account, 0);
    }

    lemma MintedFirst(m: State, t: State, account: AccountId, rest: seq<Deposit>, r: Outcome)
      requires Laws(asset, vault, Rest(m, account, rest)) && rest != [] && rest[0].account == account
      requires rest[0].hash in m.history
      requires t.history == m.history[rest[0].hash := rest[0]]
      requires t.held == m.held && t.withdraws == m.withdraws && t.mintBase == m.mintBase && t.finished == m.finished
      requires r.Done? ==> t.minted == m.minted + [rest[0]] && Mints(m, t, asset, account, rest[0].amount)
      requires !r.Done? ==> t.minted == m.minted && t.free == m.free && t.issuance == m.issuance
      requires t.vaultBase == m.vaultBase + if r.Done? && account == vault then rest[0].amount else 0
      ensures Laws(asset, vault, Rest(t, account, if r.Done? then rest[1..] else rest))
    {
      var before, after := Rest(m, account, rest), Rest(t, account, if r.Done? then rest[1..] else rest);
      assert before.Held(account) == rest && before.Issued(asset) == m.Issued(asset);
      assert after.Issued(asset) == t.Issued(asset);
      assert HeldBack(before, account, 0);
      if r.Done? {
        ReleaseFirst(before, after, account);
        MintedMore(before, asset, after, rest[0]);
      } else {
        DepositsSame(before, after, asset);
      }
    }

    ghost predicate Remembered(s: State, account: AccountId, h: TxHash)
    {
      h in s.history && forall i :: 0 <= i < |s.Held(account)| ==> s.Held(account)[i].hash != h
    }

    /** `mark_black`: the account's held deposits are dropped, and their transactions may come again. */
    method MarkBlack(author: AccountId, account: AccountId) returns (r: Outcome)
      requires Setup() && assets.Valid() && Laws(asset, vault, View())
      modifies this`marks, this`held, this`history
      ensures Laws(asset, vault, View()) && !r.Aborted?
      ensures Blackened(old(View()), View(), author, account, r)
      ensures StaysLost(old(View()), View())
    {
      ghost var s := View();
      NothingLost(s);
      hide Laws, StaysLost, Setup, Assets.Valid;
      if !HasAuth(author, MarkAuth) { return Failed("no mark auth"); }
      hide Blackened;
      var list := if account in held then held[account] else [];
      held := held - {account};
      var i := 0;
      while i < |list|
        invariant i <= |list| && held == old(held) - {account} && marks == old(marks)
        invariant forall h :: h in history <==> h in old(history) && forall k :: 0 <= k < i ==> list[k].hash != h
      {
        history := history - {list[i].hash};
        i := i + 1;
      }
      marks := marks[account := Black];
      assert list == s.Held(account) && forall h :: h in history <==> Remembered(s, account, h);
      Forgotten(s, View(), author, account);
      return Done;
    }

    lemma Forgotten(s: State, t: State, author: AccountId, account: AccountId)
      requires Laws(asset, vault, s) && author in admins && admins[author] in {All, MarkAuth}
      requires t.marks == s.marks[account := Black] && t.held == s.held - {account} && t.minted == s.minted
      requires forall h :: h in t.history <==> Remembered(s, account, h)
      requires t.free == s.free && t.issuance == s.issuance && t.withdraws == s.withdraws && t.mintBase == s.mintBase
      requires t.finished == s.finished && t.vaultBase == s.vaultBase
      ensures Blackened(s, t, author, account, Done) && Laws(asset, vault, t) && StaysLost(s, t)
    {
      hide Laws, StaysLost, Remembered;
      BlackLaw(s, t, account);
      BlackLoses(s, t, account);
    }

    lemma BlackLaw(s: State, t: State, account: AccountId)
      requires Laws(asset, vault, s) && t.minted == s.minted && t.held == s.held - {account}
      requires forall h :: h in t.history <==> Remembered(s, account, h)
      requires t.free == s.free && t.issuance == s.issuance && t.withdraws == s.withdraws && t.mintBase == s.mintBase
      requires t.finished == s.finished && t.vaultBase == s.vaultBase
      ensures Laws(asset, vault, t)
    {
      assert forall v :: t.Held(v) == if v == account then [] else s.Held(v);
      DropAll(s, t, account, asset);
    }

    lemma BlackLoses(s: State, t: State, account: AccountId)
      requires t.minted == s.minted && forall u :: t.Held(u) == if u == account then [] else s.Held(u)
      requires forall h :: h in t.history <==> Remembered(s, account, h)
      ensures StaysLost(s, t)
    {
      forall i | 0 <= i < |t.minted| ensures t.minted[i] in s.minted { }
      LostStays(s, t);
    }

    // ------------------------------------------------------------ withdrawals

    /** `withdraw`: the amount goes into the vault and waits.  Nothing stops the author from naming
        the vault itself: the amount is then listed without having come in. */
    method Withdraw(author: AccountId, who: AccountId, amount: nat) returns (r: Outcome)
      requires Setup() && assets.Valid() && Laws(asset, vault, View())
      modifies this`withdraws, this`vaultBase, assets`free
      ensures assets.Valid() && Laws(asset, vault, View()) && !r.Aborted?
      ensures Withdrawn(old(View()), View(), author, who, amount, r)
      ensures vaultBase == old(vaultBase) - if r.Done? && who == vault then amount else 0
      // the vault covers what it owes afterwards exactly if it still has that much of its own
      ensures r.Done? && who == vault ==> (Solvent(asset, vault, View()) <==> amount <= old(vaultBase))
    {
      if !HasAuth(author, WithdrawAuth) { return Failed("no withdraw auth"); }
      hide *;
      r := PayIn(who, amount, author);
      CoveredByBase(asset, vault, View());
    }

    lemma NotWithdrawn(s: State, author: AccountId, who: AccountId, amount: nat)
      requires Bal(s.free, asset, who) < amount
      ensures forall r: Outcome :: r.Failed? ==> Withdrawn(s, s, author, who, amount, r)
    {
    }

    method PayIn(who: AccountId, amount: nat, ghost author: AccountId) returns (r: Outcome)
      requires Setup() && assets.Valid() && Laws(asset, vault, View())
      requires author in admins && admins[author] in {All, WithdrawAuth}
      modifies this`withdraws, this`vaultBase, assets`free
      ensures assets.Valid() && Laws(asset, vault, View()) && !r.Aborted?
      ensures Withdrawn(old(View()), View(), author, who, amount, r)
      ensures vaultBase == old(vaultBase) - if r.Done? && who == vault then amount else 0
    {
      ghost var s := View();
      if assets.Free(asset, who) < amount { NotWithdrawn(s, author, who, amount); }
      hide Laws, Moves, Solvent, Withdrawn;
      r := Move(asset, who, vault, amount);
      if !r.Done? { return; }
      ghost var m := View();
      Await(who, amount);
      WithdrawnLaw(s, m, View(), author, who, amount);
    }

    /** One more withdrawal waits; one of the vault's own comes out of its own part. */
    method Await(who: AccountId, amount: nat)
      modifies this`withdraws, this`vaultBase
      ensures withdraws == old(withdraws)[who := old(View()).Withdraws(who) + [amount]]
      ensures vaultBase == old(vaultBase) - if who == vault then amount else 0
    {
      withdraws := withdraws[who := (if who in withdraws then withdraws[who] else []) + [amount]];
      if who == vault { vaultBase := vaultBase - amount; }
    }

    lemma WithdrawnLaw(s: State, m: State, t: State, author: AccountId, who: AccountId, amount: nat)
      requires Laws(asset, vault, s) && Moves(s, m, asset, who, vault, amount) && amount <= Bal(s.free, asset, who)
      requires author in admins && admins[author] in {All, WithdrawAuth}
      requires t.free == m.free && t.issuance == m.issuance && t.marks == s.marks
      requires t.withdraws == s.withdraws[who := s.Withdraws(who) + [amount]]
      requires t.held == s.held && t.history == s.history && t.minted == s.minted && t.mintBase == s.mintBase
      requires t.finished == s.finished && t.vaultBase == s.vaultBase - if who == vault then amount else 0
      ensures Laws(asset, vault, t) && Withdrawn(s, t, author, who, amount, Done)
    {
      StillMoves(s, m, t, asset, who, vault, amount);
      DepositsKept(s, t);
      WithdrawnBalanced(s, t, who, amount);
      hide HeldLaw, MintedOnce, Balanced, Moves;
    }

    lemma WithdrawnBalanced(s: State, t: State, who: AccountId, amount: nat)
      requires Balanced(asset, vault, s) && Moves(s, t, asset, who, vault, amount)
      requires t.withdraws == s.withdraws[who := s.Withdraws(who) + [amount]]
      requires t.finished == s.finished && t.vaultBase == s.vaultBase - if who == vault then amount else 0
      ensures Balanced(asset, vault, t)
    {
      SumAppend(s.Withdraws(who), amount);
      SumsSet(s.withdraws, who, s.Withdraws(who) + [amount]);
    }

    lemma DepositsKept(s: State, t: State)
      requires MintedOnce(asset, s) && HeldLaw(s)
      requires t.held == s.held && t.history == s.history && t.minted == s.minted && t.issuance == s.issuance
      requires t.mintBase == s.mintBase
      ensures MintedOnce(asset, t) && HeldLaw(t)
    {
      assert forall u :: t.Held(u) == s.Held(u);
      DepositsSame(s, t, asset);
    }

    /** One occurrence of `amount`, the first, is gone from an account's list, and from nobody else's. */
    ghost predicate StruckOne(s: State, t: State, who: AccountId, amount: nat)
    {
      && amount in s.Withdraws(who) && t.Withdraws(who) == RemoveFirst(s.Withdraws(who), amount)
      && multiset(t.Withdraws(who)) == multiset(s.Withdraws(who)) - multiset{amount}
      && forall u :: u != who ==> t.Withdraws(u) == s.Withdraws(u)
    }

    lemma StillStruck(s: State, h: State, m: State, t: State, who: AccountId, amount: nat)
      requires h.withdraws == s.withdraws && StruckOne(h, m, who, amount) && t.withdraws == m.withdraws
      ensures StruckOne(s, t, who, amount)
    {
      assert forall u :: h.Withdraws(u) == s.Withdraws(u) && t.Withdraws(u) == m.Withdraws(u);
    }

    /** Deletes one occurrence of `amount` from an account's list. */
    method RemoveFromPendingWithdraws(who: AccountId, amount: nat)
      requires amount in View().Withdraws(who)
      modifies this`withdraws
      ensures StruckOne(old(View()), View(), who, amount)
      ensures Sum(Sums(withdraws)) + amount == Sum(Sums(old(withdraws)))
    {
      var pendings := withdraws[who];
      RemoveFirstIsOne(pendings, amount);
      SumsSet(withdraws, who, RemoveFirst(pendings, amount));
      if |pendings| > 1 {
        var x := WithoutFirst(pendings, amount);
        withdraws := withdraws[who := x];
      } else {
        assert pendings == [amount] && RemoveFirst(pendings, amount) == [];
        withdraws := withdraws - {who};
      }
    }

    method WithoutFirst(pendings: seq<nat>, amount: nat) returns (x: seq<nat>)
      requires amount in pendings
      ensures x == RemoveFirst(pendings, amount)
    {
      hide RemoveFirst;
      var found, i := false, 0;
      x := [];
      assert pendings[..0] == [];
      while i < |pendings|
        invariant i <= |pendings| && (found <==> amount in pendings[..i])
        invariant x == if found then RemoveFirst(pendings[..i], amount) else pendings[..i]
      {
        RemoveFirstStep(pendings, amount, i);
        assert pendings[..i + 1] == pendings[..i] + [pendings[i]];
        if found || pendings[i] != amount {
          x := x + [pendings[i]];
        } else {
          found := true;
        }
        i := i + 1;
      }
      assert pendings[..i] == pendings;
    }

    /** `refund`.  A vault that covers what it owes always has the money for a listed withdrawal. */
    method Refund(author: AccountId, who: AccountId, amount: nat) returns (r: Outcome)
      requires Setup() && assets.Valid() && Laws(asset, vault, View())
      modifies this`withdraws, this`vaultBase, assets`free
      ensures assets.Valid() && Laws(asset, vault, View()) && !r.Aborted?
      ensures Refunded(old(View()), View(), author, who, amount, r)
      ensures Solvent(asset, vault, old(View())) ==>
        (r.Done? <==>
          author in admins && admins[author] in {All, RefundAuth} && amount in old(View()).Withdraws(who))
      ensures vaultBase == old(vaultBase) + if r.Done? && who == vault then amount else 0
    {
      ghost var s := View();
      hide Laws, Moves, Solvent, StruckOne;
      if !HasAuth(author, RefundAuth) { return Failed("no refund auth"); }
      if who !in withdraws || amount !in withdraws[who] { return Failed("pending withdraw not found"); }
      if Solvent(asset, vault, s) { RefundIsCovered(asset, vault, s, who, amount); }
      hide *;
      r := PayRefund(who, amount);
    }

    method PayRefund(who: AccountId, amount: nat) returns (r: Outcome)
      requires Setup() && assets.Valid() && Laws(asset, vault, View()) && amount in View().Withdraws(who)
      modifies this`withdraws, this`vaultBase, assets`free
      ensures assets.Valid() && Laws(asset, vault, View()) && !r.Aborted?
      ensures r.Done? <==> amount <= old(assets.Free(asset, vault))
      ensures r.Done? ==>
        StruckOne(old(View()), View(), who, amount) && Moves(old(View()), View(), asset, vault, who, amount)
      ensures vaultBase == old(vaultBase) + if r.Done? && who == vault then amount else 0
      ensures !r.Done? ==> View() == old(View())
    {
      ghost var s := View();
      hide Laws, StruckOne, Moves;
      r := Move(asset, vault, who, amount);
      if !r.Done? { return; }
      ghost var m := View();
      RemoveFromPendingWithdraws(who, amount);
      ghost var p := View();
      if who == vault { vaultBase := vaultBase + amount; }
      RefundedLaw(s, m, p, View(), who, amount);
    }

    lemma RefundedLaw(s: State, m: State, p: State, t: State, who: AccountId, amount: nat)
      requires Laws(asset, vault, s) && Moves(s, m, asset, vault, who, amount)
      requires m.withdraws == s.withdraws && StruckOne(m, p, who, amount)
      requires Sum(Sums(p.withdraws)) + amount == Sum(Sums(s.withdraws))
      requires t.free == m.free && t.issuance == m.issuance && t.withdraws == p.withdraws
      requires t.held == s.held && t.history == s.history && t.minted == s.minted && t.mintBase == s.mintBase
      requires t.finished == s.finished
      requires t.vaultBase == s.vaultBase + if who == vault then amount else 0
      ensures Laws(asset, vault, t) && StruckOne(s, t, who, amount) && Moves(s, t, asset, vault, who, amount)
    {
      StillStruck(s, m, p, t, who, amount);
      StillMoves(s, m, t, asset, vault, who, amount);
      StruckOff(s, t, amount);
    }

    /** `withdraw_finish`: paid out elsewhere; the amount stays in the vault for good. */
    method WithdrawFinish(author: AccountId, who: AccountId, amount: nat) returns (r: Outcome)
      requires Laws(asset, vault, View())
      modifies this`withdraws, this`finished
      ensures Laws(asset, vault, View()) && !r.Aborted?
      ensures Finished(old(View()), View(), author, who, amount, r) && finished >= old(finished)
    {
      ghost var s := View();
      hide Laws, StruckOne;
      if !HasAuth(author, WithdrawAuth) { return Failed("no withdraw auth"); }
      if who !in withdraws || amount !in withdraws[who] { return Failed("pending withdraw not found"); }
      RemoveFromPendingWithdraws(who, amount);
      ghost var m := View();
      finished := finished + amount;
      StillStruck(s, s, m, View(), who, amount);
      StruckOff(s, View(), amount);
      return Done;
    }

    lemma StruckOff(s: State, t: State, amount: nat)
      requires Laws(asset, vault, s) && Sum(Sums(t.withdraws)) + amount == Sum(Sums(s.withdraws))
      requires t.held == s.held && t.history == s.history && t.minted == s.minted && t.issuance == s.issuance
      requires t.mintBase == s.mintBase
      requires Bal(t.free, asset, vault) - t.finished - t.vaultBase ==
          Bal(s.free, asset, vault) - s.finished - s.vaultBase - amount
      ensures Laws(asset, vault, t)
    {
      DepositsKept(s, t);
      hide MintedOnce, HeldLaw, Sums;
    }

    // ------------------------------------------------------------ runs

    /** A plain transfer. */
    method Transfer(a: AssetId, from: AccountId, to: AccountId, amount: nat) returns (r: Outcome)
      requires Setup() && assets.Valid() && Laws(asset, vault, View())
      modifies this`vaultBase, assets`free
      ensures assets.Valid() && Laws(asset, vault, View()) && !r.Aborted?
      ensures Step(Call.Transfer(a, from, to, amount), old(View()), View(), r)
      ensures from != vault ==> vaultBase >= old(vaultBase)
    {
      ghost var s := View();
      hide Laws, Moves, Step;
      r := Move(a, from, to, amount);
      if !r.Done? { TransferIs(s, View(), a, from, to, amount, r); return; }
      ghost var m := View();
      Rebase(a, from, to, amount);
      MovedLaw(s, m, View(), a, from, to, amount);
    }

    /** The vault's own part follows a transfer. */
    ghost method Rebase(a: AssetId, from: AccountId, to: AccountId, amount: nat)
      modifies this`vaultBase
      ensures vaultBase == old(vaultBase) + (if a == asset && to == vault then amount else 0)
                           - (if a == asset && from == vault then amount else 0)
      ensures View() == old(View()).(vaultBase := vaultBase)
    {
      if a == asset && to == vault { vaultBase := vaultBase + amount; }
      if a == asset && from == vault { vaultBase := vaultBase - amount; }
    }

    lemma TransferIs(s: State, t: State, a: AssetId, from: AccountId, to: AccountId, amount: nat, r: Outcome)
      requires a == asset ==> (r.Done? <==> amount <= Bal(s.free, asset, from))
      requires r.Done? ==> Moves(s, t, a, from, to, amount)
      requires !r.Done? ==> t.free == s.free && t.issuance == s.issuance
      requires t.marks == s.marks && t.held == s.held && t.history == s.history && t.minted == s.minted
      requires t.withdraws == s.withdraws && t.finished == s.finished
      ensures Step(Call.Transfer(a, from, to, amount), s, t, r)
    {
      hide Moves;
    }

    lemma MovedLaw(s: State, m: State, t: State, a: AssetId, from: AccountId, to: AccountId, amount: nat)
      requires Laws(asset, vault, s) && Moves(s, m, a, from, to, amount)
      requires t.free == m.free && t.issuance == m.issuance && t.withdraws == s.withdraws && t.held == s.held
      requires t.history == s.history && t.minted == s.minted && t.mintBase == s.mintBase && t.finished == s.finished
      requires t.vaultBase == s.vaultBase + (if a == asset && to == vault then amount else 0)
                              - (if a == asset && from == vault then amount else 0)
      requires t.marks == s.marks && (a == asset ==> amount <= Bal(s.free, asset, from))
      ensures Laws(asset, vault, t) && Step(Call.Transfer(a, from, to, amount), s, t, Done)
    {
      DepositsKept(s, t);
      TransferIs(s, t, a, from, to, amount, Done);
      hide MintedOnce, HeldLaw, Step;
    }

    /** Any run, call by call: each does what it is to do, no transaction is minted twice, held ones are still to be
        minted, what was minted stays in the log, and the vault's balance is its base plus what it owes
        and has paid.  Unless a call takes from the vault, it keeps covering what it owes.  A
        transaction once lost stays lost. */
    method Run(calls: seq<Call>) returns (ghost trace: seq<State>, ghost ends: seq<Outcome>)
      requires Setup() && assets.Valid() && Laws(asset, vault, View())
      modifies this`marks, this`held, this`history, this`withdraws, this`minted, this`finished, this`vaultBase
      modifies assets`free, assets`issuance
      ensures assets.Valid() && Laws(asset, vault, View()) && old(minted) <= minted && old(finished) <= finished
      ensures |trace| == |calls| + 1 == |ends| + 1 && trace[0] == old(View()) && trace[|calls|] == View()
      ensures forall i :: 0 <= i < |calls| ==> Step(calls[i], trace[i], trace[i + 1], ends[i])
      ensures forall i :: 0 <= i < |trace| ==> Laws(asset, vault, trace[i])
      ensures Solvent(asset, vault, View()) <==> vaultBase >= 0
      ensures StaysLost(old(View()), View())
      ensures (forall i :: 0 <= i < |calls| ==> !calls[i].Drains(vault)) ==> vaultBase >= old(vaultBase)
    {
      ghost var s := View();
      trace, ends := [s], [];
      NothingLost(s);
      hide Laws, StaysLost, Call.Drains, Step;
      for k := 0 to |calls|
        invariant assets.Valid() && Laws(asset, vault, View()) && old(minted) <= minted && old(finished) <= finished
        invariant |trace| == k + 1 == |ends| + 1 && trace[0] == s && trace[k] == View()
        invariant forall i :: 0 <= i < k ==> Step(calls[i], trace[i], trace[i + 1], ends[i])
        invariant forall i :: 0 <= i <= k ==> Laws(asset, vault, trace[i])
        invariant (forall i :: 0 <= i < k ==> !calls[i].Drains(vault)) ==> vaultBase >= old(vaultBase)
        invariant StaysLost(s, View())
      {
        ghost var m := View();
        var r := Execute(calls[k]);
        trace, ends := trace + [View()], ends + [r];
        StaysLostTwice(s, m, View());
      }
      CoveredByBase(asset, vault, View());
    }

    method Execute(call: Call) returns (r: Outcome)
      requires Setup() && assets.Valid() && Laws(asset, vault, View())
      modifies this`marks, this`held, this`history, this`withdraws, this`minted, this`finished, this`vaultBase
      modifies assets`free, assets`issuance
      ensures assets.Valid() && Laws(asset, vault, View()) && !r.Aborted? && old(minted) <= minted
      ensures old(finished) <= finished && Step(call, old(View()), View(), r)
      ensures !call.Drains(vault) ==> vaultBase >= old(vaultBase)
      ensures StaysLost(old(View()), View())
    {
      hide Laws, StaysLost, Lost, Setup, Assets.Valid, Deposited, Whitened, Blackened;
      match call
      case MakeDeposit(author, account, amount, hash) => r := MakeDeposit(author, account, amount, hash);
      case MarkWhite(author, account) =>
        var done;
        r, done := MarkWhite(author, account);
      case MarkBlack(author, account) => r := MarkBlack(author, account);
      case _ => r := ExecuteVault(call);
    }

    method ExecuteVault(call: Call) returns (r: Outcome)
      requires Setup() && assets.Valid() && Laws(asset, vault, View())
      requires call.Withdraw? || call.Refund? || call.WithdrawFinish? || call.Transfer?
      modifies this`withdraws, this`finished, this`vaultBase, assets`free
      ensures assets.Valid() && Laws(asset, vault, View()) && !r.Aborted? && old(finished) <= finished
      ensures !call.Drains(vault) ==> vaultBase >= old(vaultBase)
      ensures StaysLost(old(View()), View()) && minted == old(minted) && Step(call, old(View()), View(), r)
    {
      ghost var s := View();
      hide Laws, StaysLost, StruckOne, Moves, Solvent, Setup, Assets.Valid, Withdrawn, Refunded, Finished;
      match call {
        case Withdraw(author, who, amount) => r := Withdraw(author, who, amount);
        case Refund(author, who, amount) => r := Refund(author, who, amount);
        case WithdrawFinish(author, who, amount) => r := WithdrawFinish(author, who, amount);
        case Transfer(a, from, to, amount) => r := Transfer(a, from, to, amount);
      }
      SameDeposits(s, View());
    }

    lemma SameDeposits(s: State, t: State)
      requires t.history == s.history && t.minted == s.minted && t.held == s.held
      ensures StaysLost(s, t)
    {
      assert forall u :: t.Held(u) == s.Held(u);
    }
  }

  /** A vault that owns one unit, and two withdrawals of it that name the vault itself: both go through, and
      the vault is left to owe more than it has. */
  method WithdrawnTwice() returns (b: Bridge, first: Outcome, second: Outcome)
    ensures first.Done? && second.Done? && !Solvent(b.asset, b.vault, b.View())
  {
    var assets := new Assets(0);
    first := assets.CreateAsset(0, 1, 1, Permissions(Nobody, Address(0), Address(0)));
    b := new Bridge(0, 1, 0, map[2 := All], assets);
    first := b.Withdraw(2, 1, 1);
    second := b.Withdraw(2, 1, 1);
  }
}
