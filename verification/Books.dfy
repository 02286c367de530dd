/** Balance books of a multi-asset ledger: asset -> account -> balance, where
    anything missing reads as 0. */
module Books {
  import opened Primitives

  type Book = map<AssetId, map<AccountId, nat>>

  function Row(b: Book, a: AssetId): map<AccountId, nat> { if a in b then b[a] else map[] }

  function Bal(b: Book, a: AssetId, u: AccountId): nat { Get(Row(b, a), u) }

  /** A write to one balance, and how every balance reads afterwards. */
  function Put(b: Book, a: AssetId, u: AccountId, v: nat): (r: Book)
    ensures forall a', u' :: Bal(r, a', u') == if a' == a && u' == u then v else Bal(b, a', u')
  {
    b[a := Row(b, a)[u := v]]
  }

  /** Everything that is booked for one asset. */
  ghost function Total(b: Book, a: AssetId): nat { Sum(Row(b, a)) }

  function Credited(b: Book, a: AssetId, u: AccountId, x: nat): Book { Put(b, a, u, Bal(b, a, u) + x) }

  function Debited(b: Book, a: AssetId, u: AccountId, x: nat): Book
    requires x <= Bal(b, a, u)
  {
    Put(b, a, u, Bal(b, a, u) - x)
  }

  /** The book after `x` of `a` went from one account to another. */
  function Moved(b: Book, a: AssetId, from: AccountId, to: AccountId, x: nat): Book
    requires x <= Bal(b, a, from)
  {
    if from == to then b else Credited(Debited(b, a, from, x), a, to, x)
  }

  lemma PutTotal(b: Book, a: AssetId, u: AccountId, v: nat)
    ensures Total(Put(b, a, u, v), a) == Total(b, a) - Bal(b, a, u) + v
    ensures forall a' :: a' != a ==> Total(Put(b, a, u, v), a') == Total(b, a')
  {
    SumSet(Row(b, a), u, v);
  }

  /** No balance exceeds its asset's total; two accounts together do not either. */
  lemma BalInTotal(b: Book, a: AssetId, u: AccountId)
    ensures Bal(b, a, u) <= Total(b, a)
  {
    SumBoundsOne(Row(b, a), u);
  }

  lemma TwoBalsInTotal(b: Book, a: AssetId, u: AccountId, v: AccountId)
    requires u != v
    ensures Bal(b, a, u) + Bal(b, a, v) <= Total(b, a)
  {
    SumBoundsTwo(Row(b, a), u, v);
  }

  // ---------------------------------------------------------------- what ledger operations mean

  /** `x` of asset `a` was minted to `u`; no other balance and no other issuance changed. */
  ghost predicate MintedIn(b: Book, i: map<AssetId, nat>, b': Book, i': map<AssetId, nat>, a: AssetId, u: AccountId,
                           x: nat)
  {
    && (forall a', v :: Bal(b', a', v) == Bal(b, a', v) + if a' == a && v == u then x else 0)
    && (forall a' :: Get(i', a') == Get(i, a') + if a' == a then x else 0)
  }

  ghost predicate BurnedIn(b: Book, i: map<AssetId, nat>, b': Book, i': map<AssetId, nat>, a: AssetId, u: AccountId,
                           x: nat)
  {
    && (forall a', v :: Bal(b', a', v) == Bal(b, a', v) - if a' == a && v == u then x else 0)
    && (forall a' :: Get(i', a') == Get(i, a') - if a' == a then x else 0)
  }

  ghost predicate MovedIn(b: Book, b': Book, a: AssetId, from: AccountId, to: AccountId, x: nat)
  {
    forall a', v :: Bal(b', a', v) ==
        Bal(b, a', v) - (if a' == a && v == from then x else 0) + (if a' == a && v == to then x else 0)
  }
}
