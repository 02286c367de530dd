/** When staking panics: exactly the uneven splits it would run into, phase by phase. */
module StakePanicLaws {
  import opened Primitives
  import opened Books
  import opened VestingPacks
  import opened PackLists
  import opened SavingModel
  import opened SavingLaws
  import opened RedeemLaws
  import opened DispatchLaws

  /** What stays locked of a fresh pack after its first payout. */
  function Later(b: nat, left: nat): (r: nat)
    requires left >= 1
    ensures r <= b
  {
    PortionBelow(b, left);
    b - Portion(b, left)
  }

  /** A stake of `x` in the current phase cannot be split: the pack itself into the phases left, or
      what stays locked of it, together with the account's older packs of the phase, into the
      phases to come. */
  ghost predicate SplitFails(c: Config, s: State, who: AccountId, x: nat)
    requires InPhase(c, s)
  {
    var b := c.At(s.phase).exchange * x;
    || !SplitsEvenly(b, s.left)
    || (s.left >= 2 && who in s.unreleased
        && !SplitsEvenly(PhaseTotal(s.List(who), c.share, s.phase) + Later(b, s.left), s.left - 1))
  }

  /** How far a stake takes the schedule. */
  ghost function Reach(c: Config, s: State, balance: nat): (hi: nat)
    requires InPhase(c, s)
    ensures Cum(c, s) <= hi
  {
    Max(Cum(c, s), Min(Cum(c, s) + balance, c.Capacity()))
  }

  /** The part of a stake that falls into phase `p` cannot be split.  In a phase still to come
      nobody has older packs. */
  ghost predicate PhaseFails(c: Config, s: State, who: AccountId, p: nat, x: nat)
    requires InPhase(c, s) && 1 <= p <= c.N()
  {
    x > 0 && if p == s.phase then SplitFails(c, s, who, x) else !SplitsEvenly(c.At(p).exchange * x, c.N() - p + 1)
  }

  /** The stakes that panic, in terms of the state before: the quota sum does not fit into
      128 bits, or one of the phases the stake reaches cannot split its part. */
  ghost predicate StakePanics(c: Config, s: State, who: AccountId, balance: nat)
    requires InPhase(c, s)
  {
    || s.used + balance > MAX_BALANCE
    || exists p :: s.phase <= p <= c.N() && PhaseFails(c, s, who, p, c.Overlap(p, Cum(c, s), Reach(c, s, balance)))
  }

  /** With generous exchange rates only the sum can overflow. */
  lemma GenerousNeverPanics(c: Config, s: State, who: AccountId, balance: nat)
    requires c.Generous() && InPhase(c, s)
    ensures StakePanics(c, s, who, balance) <==> s.used + balance > MAX_BALANCE
  {
    forall p | s.phase <= p <= c.N() ensures !PhaseFails(c, s, who, p, c.Overlap(p, Cum(c, s), Reach(c, s, balance))) {
      var x := c.Overlap(p, Cum(c, s), Reach(c, s, balance));
      if x > 0 { FreshPackSplits(c, p, c.N() - p + 1, x, PhaseTotal(s.List(who), c.share, p)); }
    }
  }

  /** The two splits of a fresh pack, against the pack itself. */
  lemma FreshFails(c: Config, s: State, who: AccountId, x: nat, p: Pack)
    requires InPhase(c, s) && ForStake(c, s, who, x, p) && SplitsEvenly(c.At(s.phase).exchange * x, s.left)
    requires p.After().Total() == c.At(s.phase).exchange * x - Portion(c.At(s.phase).exchange * x, s.left)
    ensures Uneven(c, s, p, who) <==> SplitFails(c, s, who, x)
  {
  }

  /** Where a stake stays, only the current phase matters. */
  lemma PanicsHere(c: Config, s: State, who: AccountId, balance: nat, x: nat)
    requires c.WellFormed() && InPhase(c, s) && s.used + balance <= MAX_BALANCE
    requires x == Min(balance, c.At(s.phase).quota - s.used)
    ensures c.Overlap(s.phase, Cum(c, s), Reach(c, s, balance)) == x
    ensures x > 0 && SplitFails(c, s, who, x) ==> StakePanics(c, s, who, balance)
    ensures (x == balance || s.phase == c.N()) && (x == 0 || !SplitFails(c, s, who, x)) ==>
      !StakePanics(c, s, who, balance)
  {
    TakesWhatFits(c, s);
    var lo, hi := Cum(c, s), Reach(c, s, balance);
    if x > 0 && SplitFails(c, s, who, x) { assert PhaseFails(c, s, who, s.phase, c.Overlap(s.phase, lo, hi)); }
    if x == balance || s.phase == c.N() {
      OverlapInPhase(c, s.phase, lo, hi);
    }
  }

  /** Where the current phase does its part and the next one takes the rest on, the rest decides. */
  lemma PanicsLater(c: Config, s: State, t: State, who: AccountId, balance: nat, x: nat)
    requires c.WellFormed() && InPhase(c, s) && InPhase(c, t) && s.used + balance <= MAX_BALANCE
    requires x == c.At(s.phase).quota - s.used < balance && Cum(c, t) == Cum(c, s) + x
    requires t.phase == s.phase + 1 && t.used == 0 && NothingLocked(c, t)
    requires x == 0 || !SplitFails(c, s, who, x)
    ensures StakePanics(c, s, who, balance) <==> StakePanics(c, t, who, balance - x)
  {
    TakesWhatFits(c, s);
    var lo, hi := Cum(c, s), Reach(c, s, balance);
    assert Reach(c, t, balance - x) == hi by { TakesWhatFits(c, t); }
    PanicsHere(c, s, who, balance, x);
    forall p | t.phase <= p <= c.N()
      ensures c.Overlap(p, lo, hi) == c.Overlap(p, lo + x, hi)
      ensures PhaseFails(c, s, who, p, c.Overlap(p, lo, hi)) <==> PhaseFails(c, t, who, p, c.Overlap(p, Cum(c, t), hi))
    {
      UptoMono(c, s.phase, p - 1);
      FreshPhaseFails(c, s, t, who, p, c.Overlap(p, lo, hi));
    }
  }

  /** Nobody has anything locked for the current phase. */
  ghost predicate NothingLocked(c: Config, t: State)
  {
    forall u :: PhaseTotal(t.List(u), c.share, t.phase) == 0
  }

  lemma FreshPhaseFails(c: Config, s: State, t: State, who: AccountId, p: nat, x: nat)
    requires InPhase(c, s) && InPhase(c, t) && s.phase < t.phase <= p <= c.N() && NothingLocked(c, t)
    ensures PhaseFails(c, s, who, p, x) <==> PhaseFails(c, t, who, p, x)
  {
    var b := c.At(p).exchange * x;
    if p == t.phase && t.left >= 2 && SplitsEvenly(b, t.left) {
      RestSplits(b, t.left);
      assert PhaseTotal(t.List(who), c.share, t.phase) == 0;
    }
  }

  /** After a payout round nobody has anything locked for the phase that opens. */
  lemma RoundOpensFresh(c: Config, m: State, r: State, t: State)
    requires InPhase(c, m) && PacksVest(c, m) && PaidLists(c, m, r) && t.unreleased == r.unreleased
    requires t.phase == m.phase + 1
    ensures NothingLocked(c, t)
  {
    forall u ensures PhaseTotal(t.List(u), c.share, t.phase) == 0 {
      assert t.List(u) == r.List(u);
      ReleasedTotals(m.List(u), c.share, u, c.N(), m.left);
      LaterPhaseEmpty(m.List(u), c.share, u, c.N(), m.left, t.phase);
    }
  }

  lemma {:induction false} LaterPhaseEmpty(l: seq<Pack>, asset: AssetId, owner: AccountId, count: nat, left: nat,
                                           p: nat)
    requires ListVests(l, asset, owner, count, left) && p > count - left + 1
    ensures PhaseTotal(l, asset, p) == 0
  {
    if l != [] {
      ListVestsPrefix(l, asset, owner, count, left);
      LaterPhaseEmpty(l[..|l| - 1], asset, owner, count, left, p);
      assert Vests(l[|l| - 1], asset, owner, count, left);
    }
  }

  /** The current phase cannot take its part of a stake. */
  ghost predicate HereFails(c: Config, s: State, who: AccountId, balance: nat)
    requires InPhase(c, s)
  {
    var x := Min(balance, c.At(s.phase).quota - s.used);
    balance > 0 && (s.used + balance > MAX_BALANCE || (x > 0 && SplitFails(c, s, who, x)))
  }

  /** It took its part `x`; a phase that opens thereby has nothing locked yet. */
  ghost predicate HereTook(c: Config, s: State, t: State, balance: nat, x: nat, shifted: bool)
  {
    && InPhase(c, s) && InPhase(c, t)
    && x == Min(balance, c.At(s.phase).quota - s.used) && Cum(c, t) == Cum(c, s) + x
    && shifted == (s.used + x == c.At(s.phase).quota && s.phase < c.N())
    && (shifted ==> t.phase == s.phase + 1 && t.used == 0 && NothingLocked(c, t))
  }

  lemma TookHere(c: Config, s: State, t: State, balance: nat, x: nat, shifted: bool)
    requires InPhase(c, s) && InPhase(c, t) && Cum(c, t) == Cum(c, s) + x
    requires x == Min(balance, c.At(s.phase).quota - s.used)
    requires shifted == (s.used + x == c.At(s.phase).quota && s.phase < c.N())
    requires shifted ==> t.phase == s.phase + 1 && t.used == 0 && NothingLocked(c, t)
    ensures HereTook(c, s, t, balance, x, shifted)
  {
  }

  /** What the current phase's part of a stake comes to. */
  lemma HereStaked(c: Config, s: State, t: State, who: AccountId, balance: nat, x: nat, shifted: bool)
    requires c.WellFormed() && InPhase(c, s) && StakeDone(c, s, t, who, x) && x > 0
    requires x == Min(balance, c.At(s.phase).quota - s.used)
    requires shifted == (s.used + x == c.At(s.phase).quota && s.phase < c.N())
    requires shifted ==> t.phase == s.phase + 1 && t.used == 0 && NothingLocked(c, t)
    ensures HereDone(c, s, t, balance, x, shifted) && HereTook(c, s, t, balance, x, shifted)
  {
    hide StakeDone, HereDone, HereTook, NothingLocked, Config.WellFormed;
    StakePosition(c, s, t, who, x);
    HereFits(c, s, t, balance, x, shifted);
    TookHere(c, s, t, balance, x, shifted);
  }

  /** Whether a stake panics is decided by the current phase, or else by what the next one is left with. */
  lemma HereDecides(c: Config, s: State, t: State, who: AccountId, balance: nat, x: nat, shifted: bool)
    requires c.WellFormed() && HereTook(c, s, t, balance, x, shifted) && !HereFails(c, s, who, balance) && x > 0
    ensures !(shifted && balance > x) ==> !StakePanics(c, s, who, balance)
    ensures shifted && balance > x ==> (StakePanics(c, s, who, balance) <==> StakePanics(c, t, who, balance - x))
  {
    hide StakePanics, SplitFails;
    if shifted && balance > x {
      PanicsLater(c, s, t, who, balance, x);
    } else {
      PanicsHere(c, s, who, balance, x);
    }
  }

  lemma HereStops(c: Config, s: State, who: AccountId, balance: nat)
    requires c.WellFormed() && InPhase(c, s) && HereFails(c, s, who, balance)
    ensures StakePanics(c, s, who, balance)
  {
    hide SplitFails;
    if s.used + balance <= MAX_BALANCE { PanicsHere(c, s, who, balance, Min(balance, c.At(s.phase).quota - s.used)); }
  }

  lemma PanicsAlike(c: Config, s: State, m: State, who: AccountId, balance: nat)
    requires InPhase(c, s) && InPhase(c, m) && m.phase == s.phase && m.used == s.used
    requires forall p :: s.phase <= p <= c.N() ==>
               (PhaseFails(c, m, who, p, c.Overlap(p, Cum(c, s), Reach(c, s, balance)))
                <==> PhaseFails(c, s, who, p, c.Overlap(p, Cum(c, s), Reach(c, s, balance))))
    ensures StakePanics(c, m, who, balance) <==> StakePanics(c, s, who, balance)
  {
    hide PhaseFails;
    assert Cum(c, m) == Cum(c, s) && Reach(c, m, balance) == Reach(c, s, balance);
  }

  /** A transfer of the collected asset alone makes no difference. */
  lemma PanicsSame(c: Config, s: State, m: State, who: AccountId, balance: nat)
    requires InPhase(c, s) && SamePosition(s, m) && m.unreleased == s.unreleased
    ensures InPhase(c, m) && (StakePanics(c, m, who, balance) <==> StakePanics(c, s, who, balance))
    ensures StakeRefused(c, m, balance) <==> StakeRefused(c, s, balance)
    ensures Fitting(c, m, balance) == Fitting(c, s, balance) && Cum(c, m) == Cum(c, s)
  {
    var lo, hi := Cum(c, s), Reach(c, s, balance);
    assert Cum(c, m) == lo && Reach(c, m, balance) == hi && m.List(who) == s.List(who);
    forall p | s.phase <= p <= c.N()
      ensures PhaseFails(c, m, who, p, c.Overlap(p, lo, hi)) <==> PhaseFails(c, s, who, p, c.Overlap(p, lo, hi))
    {
    }
    hide PhaseFails;
    PanicsAlike(c, s, m, who, balance);
  }

  /** A refused stake does not panic. */
  lemma RefusedIsQuiet(c: Config, s: State, who: AccountId, balance: nat)
    requires c.WellFormed() && InPhase(c, s) && StakeRefused(c, s, balance)
    ensures !StakePanics(c, s, who, balance)
  {
    TakesWhatFits(c, s);
    assert Reach(c, s, balance) == Cum(c, s);
  }

  /** How the current phase's part ends, and what that says about the whole stake. */
  lemma HereEnds(c: Config, s: State, t: State, who: AccountId, balance: nat, x: nat, shifted: bool, r: Outcome)
    requires c.WellFormed() && InPhase(c, s) && (r.Aborted? <==> HereFails(c, s, who, balance))
    requires r.Failed? <==> StakeRefused(c, s, balance)
    requires r.Done? ==> HereDone(c, s, t, balance, x, shifted) && HereTook(c, s, t, balance, x, shifted)
    requires shifted ==> r.Done?
    ensures r.Aborted? ==> StakePanics(c, s, who, balance)
    ensures r.Failed? ==> !StakePanics(c, s, who, balance)
    ensures r.Done? ==> 0 < x <= balance && InPhase(c, t)
    ensures r.Done? ==> x + (if shifted && x < balance then Fitting(c, t, balance - x) else 0) == Fitting(c, s, balance)
    ensures shifted ==> t.phase == s.phase + 1 <= c.N()
    ensures r.Done? && !(shifted && x < balance) ==> !StakePanics(c, s, who, balance)
    ensures shifted && x < balance ==>
      !StakeRefused(c, t, balance - x) && (StakePanics(c, s, who, balance) <==> StakePanics(c, t, who, balance - x))
  {
    hide StakePanics, HereFails, HereTook, HereDone, StakeRefused, Fitting;
    if r.Aborted? {
      HereStops(c, s, who, balance);
    } else if r.Failed? {
      RefusedIsQuiet(c, s, who, balance);
    } else {
      HereMeans(c, s, t, balance, x, shifted);
      HereDecides(c, s, t, who, balance, x, shifted);
    }
  }

  /** The stakes a call of `staking` panics on, once the first checks have passed: also those whose
      reserve does not fit into 128 bits. */
  ghost predicate StakeOrReservePanics(c: Config, s: State, who: AccountId, amount: nat, price: nat)
    requires InPhase(c, s)
  {
    || StakePanics(c, s, who, amount)
    || (!StakeRefused(c, s, amount) && !ReserveFits(price, Reach(c, s, amount) - Cum(c, s)))
  }

  ghost predicate StakingPanics(c: Config, s: State, who: AccountId, asset: AssetId, amount: nat, price: nat)
    requires InPhase(c, s)
  {
    !s.paused && asset == c.collected && amount <= Bal(s.free, asset, who)
        && StakeOrReservePanics(c, s, who, amount, price)
  }

  lemma ReachFits(c: Config, s: State, amount: nat)
    requires c.WellFormed() && InPhase(c, s)
    ensures Fitting(c, s, amount) == Reach(c, s, amount) - Cum(c, s)
  {
    TakesWhatFits(c, s);
  }

  /** How `staking` ends, given how its parts did. */
  lemma StakingPanicsWhen(c: Config, s: State, who: AccountId, amount: nat, price: nat, created: Outcome, staked: nat)
    requires c.WellFormed() && InPhase(c, s) && (created.Aborted? <==> StakePanics(c, s, who, amount))
    requires (created.Failed? <==> StakeRefused(c, s, amount)) && (created.Done? ==> staked == Fitting(c, s, amount))
    ensures StakeOrReservePanics(c, s, who, amount, price) <==>
      created.Aborted? || (created.Done? && !ReserveFits(price, staked))
  {
    hide StakePanics, Fitting, StakeRefused, Reach;
    ReachFits(c, s, amount);
    if created.Failed? { RefusedIsQuiet(c, s, who, amount); }
  }

  /** The transfers that panic, apart from redemptions: stakes that do. */
  ghost predicate TransferPanics(c: Config, s: State, a: AssetId, from: AccountId, to: AccountId, amount: nat)
    requires InPhase(c, s)
  {
    !s.paused && from != to && a == c.collected && to == c.collection && StakePanics(c, s, from, amount)
  }

  lemma RoundOpens(c: Config, m: State, r: State, t: State)
    requires InPhase(c, m) && PacksVest(c, m) && PayoutRound(c, m, r) && SameBooks(r, t) && t.phase == m.phase + 1
    ensures NothingLocked(c, t)
  {
    hide PacksVest, PaidLists, SharesAdded, OnlyShares, NothingLocked;
    RoundOpensFresh(c, m, r, t);
  }

  /** After the collected asset has moved, the stake panics exactly as it would have before. */
  lemma StakeSame(c: Config, s: State, m: State, who: AccountId, amount: nat)
    requires InPhase(c, s) && AssetMoved(s, m, c.collected, who, c.collection, amount)
    ensures InPhase(c, m) && (StakePanics(c, m, who, amount) <==> StakePanics(c, s, who, amount))
  {
    hide StakePanics;
    PanicsSame(c, s, m, who, amount);
  }
}
