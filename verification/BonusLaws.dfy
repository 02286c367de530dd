/** Profit bonuses of rio-saving: how much each share holder gets, and what is left over. */
module BonusLaws {
  import opened Primitives
  import opened Books
  import opened VestingPacks
  import opened SavingModel
  import opened SavingLaws
  import opened DispatchLaws

  /** The users' part of a profit, 80 percent rounded down. */
  function UsersPart(total: nat): (x: nat)
    ensures x <= total && 10 * x <= 8 * total < 10 * x + 10
  {
    total * 8 / 10
  }

  /** The bonus of a holder of `x` shares, in proportion, rounded down. */
  function Bonus(x: nat, users: nat, circulation: nat): nat
    requires circulation > 0
  {
    x * users / circulation
  }

  /** Each holder's bonus. */
  ghost function Bonuses(shares: map<AccountId, nat>, users: nat, circulation: nat): map<AccountId, nat>
    requires circulation > 0
  {
    map u | u in shares :: Bonus(shares[u], users, circulation)
  }

  /** All bonuses together: at most the exact proportion, and less than one unit per holder below it. */
  lemma {:induction false} BonusesBound(shares: map<AccountId, nat>, users: nat, circulation: nat)
    requires circulation > 0
    ensures var paid := Sum(Bonuses(shares, users, circulation)) * circulation;
            paid <= Sum(shares) * users <= paid + |shares| * (circulation - 1)
    decreases |shares|
  {
    hide Bonus;
    if shares == map[] {
      assert Bonuses(shares, users, circulation) == map[];
    } else {
      var u :| u in shares;
      var rest := shares - {u};
      var b := Bonus(shares[u], users, circulation);
      BonusesBound(rest, users, circulation);
      SumTake(shares, u);
      SumTake(Bonuses(shares, users, circulation), u);
      assert Bonuses(shares, users, circulation) - {u} == Bonuses(rest, users, circulation);
      assert shares.Keys == rest.Keys + {u};
      assert |shares| == |rest| + 1;
      OneMore(Sum(Bonuses(rest, users, circulation)), b, Sum(rest), shares[u], users, circulation, |rest|);
    }
  }

  lemma OneMore(paid: nat, b: nat, sum: nat, x: nat, users: nat, circulation: nat, n: nat)
    requires circulation > 0 && b == Bonus(x, users, circulation)
    requires paid * circulation <= sum * users <= paid * circulation + n * (circulation - 1)
    ensures (paid + b) * circulation <= (sum + x) * users <= (paid + b) * circulation + (n + 1) * (circulation - 1)
  {
    assert x * users == b * circulation + x * users % circulation;
    assert (paid + b) * circulation == paid * circulation + b * circulation;
    assert (sum + x) * users == sum * users + x * users;
    assert (n + 1) * (circulation - 1) == n * (circulation - 1) + (circulation - 1);
  }

  /** With the shares adding up to the circulation, the bonuses take no more than the users'
      part and leave less than one unit per holder. */
  lemma BonusesFit(shares: map<AccountId, nat>, users: nat, circulation: nat)
    requires circulation > 0 && Sum(shares) == circulation
    ensures var paid := Sum(Bonuses(shares, users, circulation)); paid <= users < paid + |shares|
  {
    BonusesBound(shares, users, circulation);
    assert shares != map[];
    Between(Sum(Bonuses(shares, users, circulation)), |shares|, users, circulation);
  }

  lemma Between(paid: nat, n: nat, users: nat, circulation: nat)
    requires circulation > 0 && n > 0
    requires paid * circulation <= circulation * users <= paid * circulation + n * (circulation - 1)
    ensures paid <= users < paid + n
  {
    assert circulation * users == users * circulation;
    MulCancel(paid, users, circulation);
    assert n * (circulation - 1) == n * circulation - n;
    assert (paid + n) * circulation == paid * circulation + n * circulation;
    if users >= paid + n { MulMono(paid + n, users, circulation); }
  }

  /** Where computing a bonus panics. */
  predicate BonusOverflows(x: nat, users: nat, circulation: nat) { circulation == 0 || x * users > MAX_BALANCE }

  /** Where giving out the bonuses panics: at any holder for whom it does, in whatever order they come. */
  ghost predicate BonusesOverflow(s: State, users: nat)
  {
    exists u :: u in s.accountShares && (s.circulation == 0 || s.accountShares[u] * users > MAX_BALANCE)
  }

  /** Where a day's profit cannot be given out. */
  ghost predicate ProfitOverflows(c: Config, s: State)
  {
    var total := Bal(s.free, c.profitAsset, c.profitPool);
    total * 8 > MAX_BALANCE || BonusesOverflow(s, UsersPart(total))
  }

  /** A transfer of shares, of however many, that enters its receiver in the index. */
  ghost predicate NewHolder(c: Config, s: State, from: AccountId, to: AccountId)
  {
    !s.paused && !s.everPaused && from != to && to != c.collection
  }

  /** The index adds up to the circulation. */
  ghost predicate FairShares(s: State)
  {
    s.circulation > 0 && Sum(s.accountShares) == s.circulation
  }

  /** That is so in every state of a run that never paused. */
  lemma NeverPausedIsFair(c: Config, s: State)
    requires Inv(c, s) && !s.everPaused && s.circulation > 0
    ensures FairShares(s)
    ensures forall u :: u != c.collection ==> Bal(s.free, c.share, u) <= Get(s.accountShares, u) <= s.circulation
  {
    assert Tracked(c, s);
    forall u ensures Get(s.accountShares, u) <= s.circulation { SumBoundsOne(s.accountShares, u); }
  }

  /** What leaves the pool; a bonus of its own stays there. */
  ghost function Leaving(bonuses: map<AccountId, nat>, pool: AccountId): nat { Sum(bonuses - {pool}) }

  /** The holders in `paid` have their bonuses, out of a pool that held `users`. */
  ghost predicate BonusPaid(c: Config, s: State, t: State, paid: map<AccountId, nat>, users: nat)
    requires s.circulation > 0
  {
    && Bal(t.free, c.profitAsset, c.profitPool) + Leaving(Bonuses(paid, users, s.circulation), c.profitPool) == users
    && (forall u :: u != c.profitPool ==>
          Bal(t.free, c.profitAsset, u) == Bal(s.free, c.profitAsset, u) + Get(Bonuses(paid, users, s.circulation), u))
  }

  lemma NobodyPaid(c: Config, s: State, t: State, shares: map<AccountId, nat>, users: nat)
    requires s.circulation > 0 && t.free == s.free && Bal(s.free, c.profitAsset, c.profitPool) == users
    ensures BonusPaid(c, s, t, shares - shares.Keys, users)
  {
    assert shares - shares.Keys == map[];
    assert Bonuses(map[], users, s.circulation) == map[];
    assert Bonuses(map[], users, s.circulation) - {c.profitPool} == map[];
  }

  /** Anybody's turn: the pool can afford it, and afterwards one more is paid. */
  lemma PayOneMore(c: Config, s: State, m: State, todo: set<AccountId>, users: nat, u: AccountId)
    requires FairShares(s)
    requires u in todo && todo <= s.accountShares.Keys && BonusPaid(c, s, m, s.accountShares - todo, users)
    ensures Bonus(s.accountShares[u], users, s.circulation) <= Bal(m.free, c.profitAsset, c.profitPool)
    ensures forall t :: AssetMoved(m, t, c.profitAsset, c.profitPool, u,
        Bonus(s.accountShares[u], users, s.circulation)) ==>
      BonusPaid(c, s, t, s.accountShares - (todo - {u}), users)
  {
    var shares: map<AccountId, nat> := s.accountShares;
    var before: map<AccountId, nat>, after: map<AccountId, nat> := shares - todo, shares - (todo - {u});
    hide Bonus;
    BonusesFit(shares, users, s.circulation);
    var all, n, pool := Bonuses(shares, users, s.circulation), Bonuses(after, users, s.circulation), c.profitPool;
    assert after - {u} == before && n - {u} == Bonuses(before, users, s.circulation);
    assert n == all - (todo - {u});
    SubSum(all, n, todo - {u});
    hide *;
    LeavesOneMore(n, u, pool);
  }

  lemma LeavesOneMore(n: map<AccountId, nat>, u: AccountId, pool: AccountId)
    requires u in n
    ensures Leaving(n, pool) == Leaving(n - {u}, pool) + if u == pool then 0 else n[u]
    ensures Leaving(n - {u}, pool) + n[u] <= Sum(n)
  {
    SumTake(n, u);
    SumRemove(n, pool);
    SumRemove(n - {u}, pool);
  }

  lemma {:induction false} SubSum(m: map<AccountId, nat>, part: map<AccountId, nat>, out: set<AccountId>)
    requires part == m - out
    ensures Sum(part) <= Sum(m)
    decreases |out|
  {
    if out == {} {
      assert part == m;
    } else {
      var u :| u in out;
      SumRemove(m, u);
      assert part == (m - {u}) - (out - {u});
      SubSum(m - {u}, part, out - {u});
    }
  }

  lemma EverybodyPaid(c: Config, s: State, t: State, users: nat)
    requires FairShares(s) && BonusPaid(c, s, t, s.accountShares - {}, users)
    ensures BonusPaid(c, s, t, s.accountShares, users)
    ensures Bal(t.free, c.profitAsset, c.profitPool) < |s.accountShares|
        + Get(Bonuses(s.accountShares, users, s.circulation), c.profitPool)
  {
    assert s.accountShares - {} == s.accountShares;
    BonusesFit(s.accountShares, users, s.circulation);
    SumRemove(Bonuses(s.accountShares, users, s.circulation), c.profitPool);
  }

  /** Moving profits is nothing to the schedule. */
  lemma ProfitIsOutside(c: Config, s: State, m: State, t: State, from: AccountId, to: AccountId, amount: nat)
    requires c.AssetsDistinct() && OutsideOnly(c, s, m)
    requires t == m || AssetMoved(m, t, c.profitAsset, from, to, amount)
    ensures OutsideOnly(c, s, t)
  {
  }

  /** A day's profit, given out: the team has the part that is not the users', every holder its
      bonus, and the pool keeps less than one unit per holder, besides a bonus of its own. */
  ghost predicate ProfitShared(c: Config, s: State, t: State)
    requires s.circulation > 0
  {
    var total := Bal(s.free, c.profitAsset, c.profitPool);
    var bonuses := Bonuses(s.accountShares, UsersPart(total), s.circulation);
    && Bal(t.free, c.profitAsset, c.profitPool) + Leaving(bonuses, c.profitPool) == UsersPart(total)
    && Bal(t.free, c.profitAsset, c.profitPool) < |s.accountShares| + Get(bonuses, c.profitPool)
    && (forall u :: u != c.profitPool ==>
          Bal(t.free, c.profitAsset, u) == Bal(s.free, c.profitAsset, u)
            + (if u == c.team then total - UsersPart(total) else 0) + Get(bonuses, u))
  }

  lemma TeamThenUsers(c: Config, s: State, m: State, t: State, total: nat)
    requires total == Bal(s.free, c.profitAsset, c.profitPool) && c.profitPool != c.team && FairShares(s)
    requires AssetMoved(s, m, c.profitAsset, c.profitPool, c.team, total - UsersPart(total))
    requires BonusPaid(c, m, t, m.accountShares, UsersPart(total))
    requires Bal(t.free, c.profitAsset, c.profitPool)
             < |m.accountShares| + Get(Bonuses(m.accountShares, UsersPart(total), m.circulation), c.profitPool)
    ensures ProfitShared(c, s, t)
  {
    hide Bonus, Bonuses, Leaving, UsersPart;
  }

  lemma OutsideTwice(c: Config, s: State, m: State, t: State)
    requires OutsideOnly(c, s, m) && OutsideOnly(c, m, t)
    ensures OutsideOnly(c, s, t)
  {
  }
}
