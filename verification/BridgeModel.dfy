/** rio-bridge seen as a value: which transactions were seen, which deposits are held back, which
    were minted, and what the withdrawal vault owes. */
module BridgeModel {
  import opened Primitives
  import opened Books

  type TxHash = nat

  datatype Mark = Black | White

  datatype Deposit = Deposit(account: AccountId, hash: TxHash, amount: nat)

  datatype State = State(
    free: Book,
    issuance: map<AssetId, nat>,
    marks: map<AccountId, Mark>,
    held: map<AccountId, seq<Deposit>>,        // waiting for the account to be marked
    history: map<TxHash, Deposit>,             // every transaction seen
    withdraws: map<AccountId, seq<nat>>,       // waiting in the vault
    minted: seq<Deposit>,                      // everything minted so far, in order
    mintBase: nat,                             // issuance that does not come from deposits
    finished: nat,                             // withdrawals paid out off-chain
    vaultBase: int)                            // what else is in the vault; below zero, what it is short of
  {
    function Held(u: AccountId): seq<Deposit> { if u in held then held[u] else [] }

    function Withdraws(u: AccountId): seq<nat> { if u in withdraws then withdraws[u] else [] }

    function Issued(a: AssetId): nat { Get(issuance, a) }
  }

  ghost function Amounts(s: seq<Deposit>): nat { if s == [] then 0 else Amounts(s[..|s| - 1]) + s[|s| - 1].amount }

  ghost function Sums(m: map<AccountId, seq<nat>>): map<AccountId, nat> { map u | u in m :: SumSeq(m[u]) }

  // ---------------------------------------------------------------- deposits

  ghost predicate HashesDistinct(s: seq<Deposit>) { forall i, j :: 0 <= i < j < |s| ==> s[i].hash != s[j].hash }

  ghost predicate WasMinted(minted: seq<Deposit>, h: TxHash) { exists i :: 0 <= i < |minted| && minted[i].hash == h }

  /** Every transaction is minted at most once, and what was minted adds up to the issuance. */
  ghost predicate MintedOnce(asset: AssetId, s: State)
  {
    && HashesDistinct(s.minted) && (forall i :: 0 <= i < |s.minted| ==> s.minted[i].hash in s.history)
    && s.Issued(asset) == s.mintBase + Amounts(s.minted)
  }

  ghost predicate HeldBack(s: State, u: AccountId, i: nat)
    requires i < |s.Held(u)|
  {
    var d := s.Held(u)[i];
    d.account == u && d.hash in s.history && !WasMinted(s.minted, d.hash)
  }

  /** Held deposits are in the history, not minted, and no two are of the same transaction. */
  ghost predicate HeldLaw(s: State)
  {
    && (forall u, i :: 0 <= i < |s.Held(u)| ==> HeldBack(s, u, i))
    && (forall u :: HashesDistinct(s.Held(u)))
    && (forall u, v, i, j ::
          u != v && 0 <= i < |s.Held(u)| && 0 <= j < |s.Held(v)| ==> s.Held(u)[i].hash != s.Held(v)[j].hash)
  }

  /** A transaction that is recorded, but neither minted nor held back: nothing will ever come of it. */
  ghost predicate Lost(s: State, h: TxHash)
  {
    && h in s.history && !WasMinted(s.minted, h)
    && forall u, i :: 0 <= i < |s.Held(u)| ==> s.Held(u)[i].hash != h
  }

  ghost predicate StaysLost(s: State, t: State) { forall h :: Lost(s, h) ==> Lost(t, h) }

  lemma StaysLostTwice(s: State, m: State, t: State)
    requires StaysLost(s, m) && StaysLost(m, t)
    ensures StaysLost(s, t)
  {
  }

  /** Where records stay, and what is minted or held is new or was held before, the lost ones stay lost. */
  lemma LostStays(s: State, t: State)
    requires forall h :: h in s.history && Lost(s, h) ==> h in t.history
    requires forall i :: 0 <= i < |t.minted| ==>
               t.minted[i] in s.minted || t.minted[i].hash !in s.history || exists u :: t.minted[i] in s.Held(u)
    requires forall u, i :: 0 <= i < |t.Held(u)| ==> t.Held(u)[i] in s.Held(u) || t.Held(u)[i].hash !in s.history
    ensures StaysLost(s, t)
  {
    forall h | Lost(s, h) ensures Lost(t, h) {
      forall i | 0 <= i < |t.minted| ensures t.minted[i].hash != h { }
      forall u, i | 0 <= i < |t.Held(u)| ensures t.Held(u)[i].hash != h { }
    }
  }

  /** A failed mint of a new transaction loses it. */
  lemma RecordedIsLost(asset: AssetId, s: State, t: State, h: TxHash)
    requires MintedOnce(asset, s) && HeldLaw(s) && h !in s.history && h in t.history
    requires t.minted == s.minted && forall u :: t.Held(u) == s.Held(u)
    ensures Lost(t, h)
  {
    forall u, i | 0 <= i < |t.Held(u)| ensures t.Held(u)[i].hash != h { assert HeldBack(s, u, i); }
  }

  // ---------------------------------------------------------------- withdrawals

  /** The vault holds its base, every pending withdrawal, and every finished one. */
  ghost predicate Balanced(asset: AssetId, vault: AccountId, s: State)
  {
    Bal(s.free, asset, vault) == s.vaultBase + Sum(Sums(s.withdraws)) + s.finished
  }

  /** The vault covers every pending withdrawal, and every finished one. */
  ghost predicate Solvent(asset: AssetId, vault: AccountId, s: State)
  {
    Bal(s.free, asset, vault) >= Sum(Sums(s.withdraws)) + s.finished
  }

  ghost predicate Laws(asset: AssetId, vault: AccountId, s: State)
  {
    MintedOnce(asset, s) && HeldLaw(s) && Balanced(asset, vault, s)
  }

  lemma CoveredByBase(asset: AssetId, vault: AccountId, s: State)
    requires Laws(asset, vault, s)
    ensures Solvent(asset, vault, s) <==> s.vaultBase >= 0
  {
  }

  lemma {:induction false} InSum(s: seq<nat>, x: nat)
    requires x in s
    ensures x <= SumSeq(s)
  {
    if x != s[0] { InSum(s[1..], x); }
  }

  lemma SumsSet(m: map<AccountId, seq<nat>>, u: AccountId, l: seq<nat>)
    ensures Sum(Sums(m[u := l])) == Sum(Sums(m)) - (if u in m then SumSeq(m[u]) else 0) + SumSeq(l)
    ensures Sum(Sums(m - {u})) == Sum(Sums(m)) - (if u in m then SumSeq(m[u]) else 0)
    ensures (if u in m then SumSeq(m[u]) else 0) <= Sum(Sums(m))
  {
    assert Sums(m[u := l]) == Sums(m)[u := SumSeq(l)];
    SumSet(Sums(m), u, SumSeq(l));
    assert Sums(m - {u}) == Sums(m) - {u};
    SumRemove(Sums(m), u);
    SumBoundsOne(Sums(m), u);
  }

  /** A vault that covers them can refund every listed withdrawal. */
  lemma RefundIsCovered(asset: AssetId, vault: AccountId, s: State, who: AccountId, amount: nat)
    requires Solvent(asset, vault, s) && amount in s.Withdraws(who)
    ensures amount <= Bal(s.free, asset, vault)
  {
    InSum(s.Withdraws(who), amount);
    SumsSet(s.withdraws, who, []);
  }

  /** A list without the first occurrence of a value. */
  function RemoveFirst(s: seq<nat>, x: nat): seq<nat>
  {
    if s == [] then [] else if s[0] == x then s[1..] else [s[0]] + RemoveFirst(s[1..], x)
  }

  lemma {:induction false} RemoveFirstIsOne(s: seq<nat>, x: nat)
    requires x in s
    ensures multiset(RemoveFirst(s, x)) == multiset(s) - multiset{x}
    ensures SumSeq(RemoveFirst(s, x)) + x == SumSeq(s)
  {
    assert s == [s[0]] + s[1..];
    if s[0] != x {
      RemoveFirstIsOne(s[1..], x);
      assert RemoveFirst(s, x)[1..] == RemoveFirst(s[1..], x);
    }
  }

  /** What a loop that skips the first occurrence has built so far. */
  lemma {:induction false} RemoveFirstStep(s: seq<nat>, x: nat, i: nat)
    requires i < |s|
    ensures x in s[..i] ==> RemoveFirst(s[..i + 1], x) == RemoveFirst(s[..i], x) + [s[i]]
    ensures x !in s[..i] ==>
      RemoveFirst(s[..i], x) == s[..i] && RemoveFirst(s[..i + 1], x) == if s[i] == x then s[..i] else s[..i + 1]
    decreases i
  {
    if i > 0 {
      RemoveFirstStep(s[1..], x, i - 1);
      assert s[..i] == [s[0]] + s[1..][..i - 1] && s[..i + 1] == [s[0]] + s[1..][..i];
      assert s[..i][1..] == s[1..][..i - 1] && s[..i + 1][1..] == s[1..][..i];
    } else {
      assert s[..1] == [s[0]] && s[..1][1..] == [];
    }
  }

  // ---------------------------------------------------------------- steps

  ghost predicate Mints(s: State, t: State, a: AssetId, u: AccountId, x: nat)
  {
    MintedIn(s.free, s.issuance, t.free, t.issuance, a, u, x)
  }

  ghost predicate Moves(s: State, t: State, a: AssetId, from: AccountId, to: AccountId, x: nat)
  {
    MovedIn(s.free, t.free, a, from, to, x) && t.issuance == s.issuance
  }

  lemma StillMints(s: State, h: State, m: State, t: State, a: AssetId, u: AccountId, x: nat)
    requires h.free == s.free && h.issuance == s.issuance
    requires Mints(h, m, a, u, x) && t.free == m.free && t.issuance == m.issuance
    ensures Mints(s, t, a, u, x)
  {
    assert forall b :: h.Issued(b) == s.Issued(b) && t.Issued(b) == m.Issued(b);
  }

  lemma StillMoves(s: State, m: State, t: State, a: AssetId, from: AccountId, to: AccountId, x: nat)
    requires Moves(s, m, a, from, to, x) && t.free == m.free && t.issuance == m.issuance
    ensures Moves(s, t, a, from, to, x)
  {
  }

  /** A deposit of a transaction not minted before, and not held, is minted. */
  lemma MintedMore(s: State, asset: AssetId, t: State, d: Deposit)
    requires MintedOnce(asset, s) && !WasMinted(s.minted, d.hash) && t.minted == s.minted + [d]
    requires t.mintBase == s.mintBase
    requires t.Issued(asset) == s.Issued(asset) + d.amount && d.hash in t.history
    requires forall h :: h in s.history ==> h in t.history
    ensures MintedOnce(asset, t)
    ensures forall h :: WasMinted(t.minted, h) ==> WasMinted(s.minted, h) || h == d.hash
  {
    assert t.minted[..|t.minted| - 1] == s.minted;
    forall i | 0 <= i < |s.minted| ensures s.minted[i].hash != d.hash { }
  }

  lemma OneMoreMinted(minted: seq<Deposit>, d: Deposit, h: TxHash)
    ensures WasMinted(minted + [d], h) <==> WasMinted(minted, h) || h == d.hash
  {
    var all := minted + [d];
    if WasMinted(minted, h) {
      var i :| 0 <= i < |minted| && minted[i].hash == h;
      assert all[i].hash == h;
    }
    if h == d.hash { assert all[|minted|].hash == h; }
  }

  /** The first of an account's held deposits leaves the list and is minted. */
  lemma ReleaseFirst(s: State, t: State, u: AccountId)
    requires HeldLaw(s) && |s.Held(u)| > 0 && t.minted == s.minted + [s.Held(u)[0]]
    requires forall v :: t.Held(v) == if v == u then s.Held(u)[1..] else s.Held(v)
    requires forall h :: h in s.history ==> h in t.history
    ensures HeldLaw(t) && !WasMinted(s.minted, s.Held(u)[0].hash) && s.Held(u)[0].hash in s.history
  {
    var d := s.Held(u)[0];
    assert HeldBack(s, u, 0);
    forall v, i | 0 <= i < |t.Held(v)| ensures HeldBack(t, v, i) {
      var k := if v == u then i + 1 else i;
      assert t.Held(v)[i] == s.Held(v)[k] && HeldBack(s, v, k);
      var h := t.Held(v)[i].hash;
      assert h != d.hash;
      OneMoreMinted(s.minted, d, h);
    }
  }

  /** Nothing about held or minted deposits changes. */
  lemma DepositsSame(s: State, t: State, asset: AssetId)
    requires HeldLaw(s) && t.minted == s.minted && forall u :: t.Held(u) == s.Held(u)
    requires forall h :: h in s.history ==> h in t.history
    ensures HeldLaw(t)
    ensures MintedOnce(asset, s) && t.mintBase == s.mintBase && t.Issued(asset) == s.Issued(asset) ==>
      MintedOnce(asset, t)
  {
    forall u, i | 0 <= i < |t.Held(u)| ensures HeldBack(t, u, i) { assert HeldBack(s, u, i); }
    forall u ensures HashesDistinct(t.Held(u)) { assert t.Held(u) == s.Held(u); }
    forall u, v, i, j | u != v && 0 <= i < |t.Held(u)| && 0 <= j < |t.Held(v)|
      ensures t.Held(u)[i].hash != t.Held(v)[j].hash
    {
      assert t.Held(u) == s.Held(u) && t.Held(v) == s.Held(v);
    }
  }

  /** A new transaction is held back. */
  lemma HoldMore(s: State, t: State, d: Deposit)
    requires HeldLaw(s) && d.hash !in s.history && t.minted == s.minted && t.history.Keys == s.history.Keys + {d.hash}
    requires forall i :: 0 <= i < |s.minted| ==> s.minted[i].hash in s.history
    requires forall v :: t.Held(v) == if v == d.account then s.Held(v) + [d] else s.Held(v)
    ensures HeldLaw(t)
  {
    forall v, i | 0 <= i < |t.Held(v)| ensures HeldBack(t, v, i) {
      if i < |s.Held(v)| { assert HeldBack(s, v, i); }
    }
    forall v, i | 0 <= i < |s.Held(v)| ensures s.Held(v)[i].hash != d.hash { assert HeldBack(s, v, i); }
  }

  /** Held deposits of an account are dropped, and their transactions forgotten. */
  lemma DropAll(s: State, t: State, u: AccountId, asset: AssetId)
    requires HeldLaw(s) && MintedOnce(asset, s) && t.minted == s.minted && t.mintBase == s.mintBase
    requires t.issuance == s.issuance
    requires forall v :: t.Held(v) == if v == u then [] else s.Held(v)
    requires forall h ::
      h in t.history <==> h in s.history && forall i :: 0 <= i < |s.Held(u)| ==> s.Held(u)[i].hash != h
    ensures HeldLaw(t) && MintedOnce(asset, t)
  {
    forall v, i | 0 <= i < |t.Held(v)| ensures HeldBack(t, v, i) { assert HeldBack(s, v, i); }
    forall i | 0 <= i < |t.minted| ensures t.minted[i].hash in t.history {
      forall k | 0 <= k < |s.Held(u)| ensures s.Held(u)[k].hash != t.minted[i].hash {
        assert HeldBack(s, u, k) && WasMinted(s.minted, t.minted[i].hash);
      }
    }
  }
}
