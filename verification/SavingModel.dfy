/** rio-saving seen as a value: its configuration, its state together with the
    balances it works on, and the laws every run keeps. */
module SavingModel {
  import opened Primitives
  import opened Books
  import opened VestingPacks
  import opened PackLists

  /** A phase sells `quota` units of the collected asset at `exchange` shares each,
      against its own IOU asset. */
  datatype Phase = Phase(quota: nat, exchange: nat, iou: AssetId)

  datatype Config = Config(
    phases: seq<Phase>,              // phase ids start from 1
    collected: AssetId,              // what users stake (SBTC)
    collection: AccountId,           // where it goes
    share: AssetId,                  // what they receive (RBTC)
    reservedAsset: AssetId,
    reservedWallet: AccountId,
    profitAsset: AssetId,
    profitPool: AccountId,
    team: AccountId)
  {
    function N(): nat { |phases| }

    function At(p: nat): Phase
      requires 1 <= p <= N()
    {
      phases[p - 1]
    }

    /** The quotas of the first `k` phases together. */
    ghost function Upto(k: nat): nat
      requires k <= N()
    {
      if k == 0 then 0 else Upto(k - 1) + phases[k - 1].quota
    }

    ghost function Capacity(): nat { Upto(N()) }

    /** What is staked into phase `p` while the cumulative stake grows from `lo` to `hi`. */
    ghost function Overlap(p: nat, lo: nat, hi: nat): nat
      requires 1 <= p <= N()
    {
      Max(0, Min(hi, Upto(p)) - Max(lo, Upto(p - 1)))
    }

    ghost function Overlaps(lo: nat, hi: nat): seq<int>
    {
      seq(N(), i requires 0 <= i < N() => Overlap(i + 1, lo, hi))
    }

    /** Amounts per phase, valued in shares. */
    ghost function Weigh(xs: seq<int>, k: nat): int
      requires k <= N() == |xs|
    {
      if k == 0 then 0 else Weigh(xs, k - 1) + phases[k - 1].exchange * xs[k - 1]
    }

    ghost function Shares(lo: nat, hi: nat): int { Weigh(Overlaps(lo, hi), N()) }

    /** The phase an IOU asset was registered for at genesis, a later registration replacing
        an earlier one; 0 for any other asset. */
    function PhaseOf(a: AssetId): nat { Find(a, N()) }

    function Find(a: AssetId, k: nat): (p: nat)
      requires k <= N()
      ensures p <= k && (p > 0 ==> At(p).iou == a)
      ensures p == 0 ==> forall i :: 0 <= i < k ==> phases[i].iou != a
    {
      if k == 0 then 0 else if phases[k - 1].iou == a then k else Find(a, k - 1)
    }

    predicate IsIou(a: AssetId) { PhaseOf(a) > 0 }

    ghost predicate IousDistinct()
    {
      forall i, j :: 0 <= i < j < N() ==> phases[i].iou != phases[j].iou
    }

    lemma IouFound(p: nat)
      requires IousDistinct() && 1 <= p <= N()
      ensures PhaseOf(At(p).iou) == p
    {
      assert phases[p - 1].iou == phases[PhaseOf(At(p).iou) - 1].iou;
    }

    ghost predicate AssetsDistinct()
    {
      && IousDistinct()
      && share != collected && !IsIou(share) && !IsIou(collected)
      && reservedAsset != share && reservedAsset != collected && !IsIou(reservedAsset)
      && profitAsset != share && profitAsset != collected && !IsIou(profitAsset)
    }

    /** Phase ids are 32-bit numbers, and every share ever to be issued stays far enough below
        128 bits to be multiplied by one. */
    ghost predicate HasRoom()
    {
      N() < 0x1_0000_0000 && Capacity() <= MAX_BALANCE && Shares(0, Capacity()) < 0x1_0000_0000_0000_0000_0000_0000
    }

    /** The genesis configurations the laws are about. */
    ghost predicate WellFormed()
    {
      && N() >= 1 && (forall i :: 0 <= i < N() ==> phases[i].quota > 0)
      && AssetsDistinct() && HasRoom()
      && collection != reservedWallet && collection != profitPool && collection != team && profitPool != team
    }

    /** Exchange rates large enough for every fresh stake to split evenly. */
    ghost predicate Generous()
    {
      forall i :: 0 <= i < N() ==> phases[i].exchange >= (N() - 1) * (N() - 1)
    }
  }

  ghost function SumInts(xs: seq<int>, k: nat): int
    requires k <= |xs|
  {
    if k == 0 then 0 else SumInts(xs, k - 1) + xs[k - 1]
  }

  datatype State = State(
    free: Book,
    issuance: map<AssetId, nat>,
    unreleased: map<AccountId, seq<Pack>>,
    phase: nat,
    used: nat,
    left: nat,
    accountShares: map<AccountId, nat>,
    circulation: nat,
    paused: bool,
    everPaused: bool)          // the module was paused at some point of the run
  {
    function List(u: AccountId): seq<Pack> { if u in unreleased then unreleased[u] else [] }

    ghost function Totals(): map<AccountId, nat> { map u | u in unreleased :: ListTotal(unreleased[u]) }

    /** Everything the unreleased lists of all accounts still have to pay out. */
    ghost function Locked(): nat { Sum(Totals()) }

    function Issued(a: AssetId): nat { Get(issuance, a) }
  }

  /** The cumulative stake: everything ever staked, over all phases. */
  ghost function Cum(c: Config, s: State): nat
    requires InPhase(c, s)
  {
    c.Upto(s.phase - 1) + s.used
  }

  /** An account's shares: free ones and locked ones. */
  ghost function Entitled(c: Config, s: State, u: AccountId): nat
  {
    Bal(s.free, c.share, u) + ListTotal(s.List(u))
  }

  /** IOUs of each phase that nobody handed back. */
  ghost function Outstanding(c: Config, s: State): seq<int>
  {
    seq(c.N(), i requires 0 <= i < c.N() =>
      s.Issued(c.phases[i].iou) - Bal(s.free, c.phases[i].iou, c.collection))
  }

  /** IOUs of each phase in one account. */
  ghost function Held(c: Config, s: State, u: AccountId): seq<int>
  {
    seq(c.N(), i requires 0 <= i < c.N() => Bal(s.free, c.phases[i].iou, u))
  }

  // ---------------------------------------------------------------- the laws

  /** Vesting is in step with the phases. */
  ghost predicate InPhase(c: Config, s: State)
  {
    && 1 <= s.phase <= c.N() && s.left == c.N() - s.phase + 1
    && s.used <= c.At(s.phase).quota
    && (s.used == c.At(s.phase).quota ==> s.phase == c.N())
  }

  /** Each account has at most one pack per phase, each with one payout per phase to come. */
  ghost predicate PacksVest(c: Config, s: State)
  {
    forall u :: u in s.unreleased ==>
      u != c.collection && ListVests(s.unreleased[u], c.share, u, c.N(), s.left)
  }

  /** Issued shares plus locked ones are what the outstanding IOUs are worth.  IOUs thrown
      at the collection account while the module is paused are worth nothing any more. */
  ghost predicate Backed(c: Config, s: State)
  {
    var worth := c.Weigh(Outstanding(c, s), c.N());
    && s.Issued(c.share) + s.Locked() >= worth
    && (!s.everPaused ==> s.Issued(c.share) + s.Locked() == worth)
  }

  /** Nothing exceeds what was ever staked. */
  ghost predicate Capped(c: Config, s: State)
    requires InPhase(c, s)
  {
    && s.Issued(c.share) + s.Locked() <= c.Shares(0, Cum(c, s))
    && (forall p :: 1 <= p <= c.N() ==> s.Issued(c.At(p).iou) <= c.Overlap(p, 0, Cum(c, s)))
  }

  /** The share index used for bonuses covers every account's free shares. */
  ghost predicate Covers(c: Config, free: Book, accountShares: map<AccountId, nat>, circulation: nat)
  {
    && Sum(accountShares) == circulation
    && (forall u :: u != c.collection ==> Bal(free, c.share, u) <= Get(accountShares, u))
  }

  ghost predicate Tracked(c: Config, s: State) { Covers(c, s.free, s.accountShares, s.circulation) }

  ghost predicate Indexed(c: Config, s: State)
    requires InPhase(c, s)
  {
    !s.everPaused ==> Tracked(c, s) && s.circulation + s.Locked() <= c.Shares(0, Cum(c, s))
  }

  /** The collection account can pay every outstanding IOU back. */
  ghost predicate Covered(c: Config, s: State)
  {
    SumInts(Outstanding(c, s), c.N()) <= Bal(s.free, c.collected, c.collection)
  }

  ghost predicate Core(c: Config, s: State)
  {
    && InPhase(c, s) && PacksVest(c, s) && Backed(c, s) && Capped(c, s) && Indexed(c, s)
    && (s.paused ==> s.everPaused)
  }

  ghost predicate Inv(c: Config, s: State) { Core(c, s) && Covered(c, s) }

  // ---------------------------------------------------------------- sums over phases

  lemma {:induction false} WeighSum(c: Config, xs: seq<int>, ys: seq<int>, zs: seq<int>, k: nat)
    requires k <= c.N() == |xs| == |ys| == |zs|
    requires forall i :: 0 <= i < k ==> zs[i] == xs[i] + ys[i]
    ensures c.Weigh(zs, k) == c.Weigh(xs, k) + c.Weigh(ys, k)
    ensures SumInts(zs, k) == SumInts(xs, k) + SumInts(ys, k)
  {
    if k > 0 {
      WeighSum(c, xs, ys, zs, k - 1);
      var e := c.phases[k - 1].exchange;
      assert e * zs[k - 1] == e * xs[k - 1] + e * ys[k - 1];
    }
  }

  lemma {:induction false} WeighSame(c: Config, xs: seq<int>, ys: seq<int>, k: nat)
    requires k <= c.N() == |xs| == |ys|
    requires forall i :: 0 <= i < k ==> xs[i] == ys[i]
    ensures c.Weigh(xs, k) == c.Weigh(ys, k) && SumInts(xs, k) == SumInts(ys, k)
  {
    if k > 0 { WeighSame(c, xs, ys, k - 1); }
  }

  lemma {:induction false} WeighOne(c: Config, xs: seq<int>, ys: seq<int>, p: nat, x: int, k: nat)
    requires k <= c.N() == |xs| == |ys| && 1 <= p <= c.N()
    requires forall i :: 0 <= i < k ==> ys[i] == xs[i] + if i + 1 == p then x else 0
    ensures c.Weigh(ys, k) == c.Weigh(xs, k) + if p <= k then c.At(p).exchange * x else 0
    ensures SumInts(ys, k) == SumInts(xs, k) + if p <= k then x else 0
  {
    if k > 0 {
      WeighOne(c, xs, ys, p, x, k - 1);
      if k == p {
        var e := c.At(p).exchange;
        assert e * ys[k - 1] == e * xs[k - 1] + e * x;
      }
    }
  }

  lemma {:induction false} WeighMono(c: Config, xs: seq<int>, ys: seq<int>, k: nat)
    requires k <= c.N() == |xs| == |ys|
    requires forall i :: 0 <= i < k ==> xs[i] <= ys[i]
    ensures c.Weigh(xs, k) <= c.Weigh(ys, k)
  {
    if k > 0 {
      WeighMono(c, xs, ys, k - 1);
      MulMono(xs[k - 1], ys[k - 1], c.phases[k - 1].exchange);
    }
  }

  /** One phase is worth no more than all of them. */
  lemma {:induction false} WeighAtLeastOne(c: Config, xs: seq<int>, p: nat, k: nat)
    requires 1 <= p <= k <= c.N() == |xs|
    requires forall i :: 0 <= i < k ==> 0 <= xs[i]
    ensures 0 <= c.At(p).exchange * xs[p - 1] <= c.Weigh(xs, k)
  {
    WeighNonNegative(c, xs, k - 1);
    if k > p {
      WeighAtLeastOne(c, xs, p, k - 1);
      MulMono(0, xs[k - 1], c.phases[k - 1].exchange);
    } else {
      MulMono(0, xs[k - 1], c.phases[k - 1].exchange);
    }
  }

  lemma {:induction false} WeighNonNegative(c: Config, xs: seq<int>, k: nat)
    requires k <= c.N() == |xs|
    requires forall i :: 0 <= i < k ==> 0 <= xs[i]
    ensures 0 <= c.Weigh(xs, k) && 0 <= SumInts(xs, k)
  {
    if k > 0 {
      WeighNonNegative(c, xs, k - 1);
      MulMono(0, xs[k - 1], c.phases[k - 1].exchange);
    }
  }

  lemma {:induction false} SumAtLeastOne(xs: seq<int>, p: nat, k: nat)
    requires 1 <= p <= k <= |xs|
    requires forall i :: 0 <= i < k ==> 0 <= xs[i]
    ensures xs[p - 1] <= SumInts(xs, k)
  {
    if k > p { SumAtLeastOne(xs, p, k - 1); } else { SumNonNegative(xs, k - 1); }
  }

  lemma {:induction false} SumNonNegative(xs: seq<int>, k: nat)
    requires k <= |xs|
    requires forall i :: 0 <= i < k ==> 0 <= xs[i]
    ensures 0 <= SumInts(xs, k)
  {
    if k > 0 { SumNonNegative(xs, k - 1); }
  }

  // ---------------------------------------------------------------- the position in the schedule

  lemma {:induction false} UptoMono(c: Config, j: nat, k: nat)
    requires j <= k <= c.N()
    ensures c.Upto(j) <= c.Upto(k)
  {
    if j < k { UptoMono(c, j, k - 1); }
  }

  /** The position is a function of the cumulative stake: two states that have taken in the
      same amount are in the same phase with the same quota used. */
  lemma PositionIsCanonical(c: Config, s: State, t: State)
    requires InPhase(c, s) && InPhase(c, t)
    requires forall i :: 0 <= i < c.N() ==> c.phases[i].quota > 0
    ensures Cum(c, s) == Cum(c, t) <==> s.phase == t.phase && s.used == t.used
    ensures Cum(c, s) <= c.Capacity()
    ensures Cum(c, s) == c.Capacity() <==> s.phase == c.N() && s.used == c.At(c.N()).quota
  {
    UptoMono(c, s.phase, c.N());
    if s.phase < t.phase { UptoMono(c, s.phase, t.phase - 1); }
    if t.phase < s.phase { UptoMono(c, t.phase, s.phase - 1); }
    if s.phase < c.N() { UptoMono(c, s.phase, c.N() - 1); }
  }

  /** Staking in two goes fills the phases like staking once. */
  lemma OverlapsAdd(c: Config, lo: nat, mid: nat, hi: nat)
    requires lo <= mid <= hi
    ensures forall p :: 1 <= p <= c.N() ==> c.Overlap(p, lo, mid) + c.Overlap(p, mid, hi) == c.Overlap(p, lo, hi)
    ensures c.Shares(lo, mid) + c.Shares(mid, hi) == c.Shares(lo, hi)
  {
    forall p | 1 <= p <= c.N()
      ensures c.Overlap(p, lo, mid) + c.Overlap(p, mid, hi) == c.Overlap(p, lo, hi)
    {
      UptoMono(c, p - 1, p);
    }
    WeighSum(c, c.Overlaps(lo, mid), c.Overlaps(mid, hi), c.Overlaps(lo, hi), c.N());
  }

  /** Within one phase, everything goes to that phase. */
  lemma OverlapInPhase(c: Config, p: nat, lo: nat, hi: nat)
    requires 1 <= p <= c.N() && c.Upto(p - 1) <= lo <= hi <= c.Upto(p)
    ensures forall q :: 1 <= q <= c.N() ==> c.Overlap(q, lo, hi) == if q == p then hi - lo else 0
    ensures c.Shares(lo, hi) == c.At(p).exchange * (hi - lo)
  {
    forall q | 1 <= q <= c.N()
      ensures c.Overlap(q, lo, hi) == if q == p then hi - lo else 0
    {
      UptoMono(c, q - 1, q);
      if q < p { UptoMono(c, q, p - 1); }
      if q > p { UptoMono(c, p, q - 1); }
    }
    var zero := seq(c.N(), i => 0);
    WeighZero(c, zero, c.N());
    WeighOne(c, zero, c.Overlaps(lo, hi), p, hi - lo, c.N());
  }

  lemma {:induction false} WeighZero(c: Config, zs: seq<int>, k: nat)
    requires k <= c.N() == |zs| && forall i :: 0 <= i < k ==> zs[i] == 0
    ensures c.Weigh(zs, k) == 0 && SumInts(zs, k) == 0
  {
    if k > 0 { WeighZero(c, zs, k - 1); }
  }

  /** No prefix of the schedule is worth more than all of it. */
  lemma SharesGrow(c: Config, lo: nat, mid: nat, hi: nat)
    requires lo <= mid <= hi
    ensures 0 <= c.Shares(lo, mid) <= c.Shares(lo, hi)
  {
    OverlapsAdd(c, lo, mid, hi);
    WeighNonNegative(c, c.Overlaps(mid, hi), c.N());
    WeighNonNegative(c, c.Overlaps(lo, mid), c.N());
  }

  lemma {:induction false} OverlapsSum(c: Config, lo: nat, hi: nat, k: nat)
    requires k <= c.N() && lo <= hi
    ensures SumInts(c.Overlaps(lo, hi), k) == Max(0, Min(hi, c.Upto(k)) - lo)
  {
    if k > 0 {
      OverlapsSum(c, lo, hi, k - 1);
      UptoMono(c, k - 1, k);
    }
  }

  // ---------------------------------------------------------------- locked totals

  lemma LockedSet(s: State, u: AccountId, l: seq<Pack>)
    ensures s.(unreleased := s.unreleased[u := l]).Locked() == s.Locked() - ListTotal(s.List(u)) + ListTotal(l)
    ensures ListTotal(s.List(u)) <= s.Locked()
  {
    var t := s.(unreleased := s.unreleased[u := l]);
    assert t.Totals() == s.Totals()[u := ListTotal(l)];
    SumSet(s.Totals(), u, ListTotal(l));
    SumBoundsOne(s.Totals(), u);
  }

  lemma LockedRemove(s: State, u: AccountId)
    ensures s.(unreleased := s.unreleased - {u}).Locked() == s.Locked() - ListTotal(s.List(u))
  {
    var t := s.(unreleased := s.unreleased - {u});
    assert t.Totals() == s.Totals() - {u};
    SumRemove(s.Totals(), u);
  }

  lemma LockedSame(s: State, t: State)
    requires s.unreleased == t.unreleased
    ensures s.Locked() == t.Locked() && forall u :: s.List(u) == t.List(u)
  {
    assert s.Totals() == t.Totals();
  }

  /** In the last phase nothing is locked any more: every entitlement has been paid out in full. */
  lemma LastPhaseIsPaidOut(c: Config, s: State)
    requires InPhase(c, s) && PacksVest(c, s) && s.phase == c.N()
    ensures forall u :: s.List(u) == [] && Entitled(c, s, u) == Bal(s.free, c.share, u)
    ensures s.Locked() == 0
  {
    forall u ensures s.List(u) == [] {
      PaysAverage(s.List(u), c.share, u, c.N(), s.left, 1);
    }
    forall u | u in s.unreleased ensures s.unreleased[u] == [] { assert s.List(u) == []; }
    NothingIn(s.Totals());
  }

  lemma {:induction false} NothingIn(m: map<AccountId, nat>)
    requires forall u :: u in m ==> m[u] == 0
    ensures Sum(m) == 0
    decreases |m|
  {
    if m != map[] {
      var u :| u in m;
      SumTake(m, u);
      NothingIn(m - {u});
    }
  }
}
