/** How each step of rio-saving moves the state, and why the laws survive it. */
module SavingLaws {
  import opened Primitives
  import opened Books
  import opened VestingPacks
  import opened PackLists
  import opened SavingModel

  // ---------------------------------------------------------------- relations between states

  /** Balances and issuance of all assets the saving schedule has nothing to do with. */
  ghost predicate OthersKept(c: Config, s: State, t: State)
  {
    forall a :: a != c.share && !c.IsIou(a) ==>
      t.Issued(a) == s.Issued(a) && forall u :: Bal(t.free, a, u) == Bal(s.free, a, u)
  }

  /** The module does not get paused by itself while it was never paused before. */
  ghost predicate PauseKept(s: State, t: State)
  {
    && (s.everPaused ==> t.everPaused)
    && (!s.everPaused ==> !t.everPaused && t.paused == s.paused)
    && (t.paused ==> t.everPaused || s.paused)
  }

  ghost predicate SamePosition(s: State, t: State) { t.phase == s.phase && t.used == s.used && t.left == s.left }

  /** Everything but shares is as it was. */
  ghost predicate OnlyShares(c: Config, s: State, t: State)
  {
    && (forall a, u :: a != c.share ==> Bal(t.free, a, u) == Bal(s.free, a, u))
    && (forall a :: a != c.share ==> t.Issued(a) == s.Issued(a))
  }

  /** `shares` more shares exist, free or locked, and the bonus index knows about them. */
  ghost predicate SharesAdded(c: Config, s: State, t: State, shares: nat)
  {
    && t.Issued(c.share) + t.Locked() == s.Issued(c.share) + s.Locked() + shares
    && IndexFollows(c, s, t, shares)
  }

  ghost predicate IndexFollows(c: Config, s: State, t: State, shares: int)
  {
    !s.everPaused && Tracked(c, s) ==>
        Tracked(c, t) && t.circulation + t.Locked() == s.circulation + s.Locked() + shares
  }

  /** Every account receives the next payout of each of its packs. */
  ghost predicate PaidLists(c: Config, s: State, t: State)
  {
    && (forall u :: u in t.unreleased ==> u in s.unreleased && t.unreleased[u] != [])
    && (forall u :: t.List(u) == Released(s.List(u)))
    && (forall u :: Bal(t.free, c.share, u) == Bal(s.free, c.share, u) + PaidOut(s.List(u)))
  }

  ghost predicate PayoutRound(c: Config, s: State, t: State)
  {
    SamePosition(s, t) && OnlyShares(c, s, t) && PaidLists(c, s, t) && SharesAdded(c, s, t, 0) && PauseKept(s, t)
  }

  /** `x` IOUs of the current phase for `who`. */
  ghost predicate IouMinted(c: Config, s: State, t: State, who: AccountId, x: nat)
    requires 1 <= s.phase <= c.N()
  {
    var iou := c.At(s.phase).iou;
    && t.Issued(iou) == s.Issued(iou) + x
    && (forall u :: Bal(t.free, iou, u) == Bal(s.free, iou, u) + if u == who then x else 0)
    && (forall a :: a != c.share && a != iou ==> t.Issued(a) == s.Issued(a))
    && (forall a, u :: a != c.share && a != iou ==> Bal(t.free, a, u) == Bal(s.free, a, u))
  }

  /** `shares` more for `who`, the locked part booked under the current phase. */
  ghost predicate SharesSold(c: Config, s: State, t: State, who: AccountId, shares: nat)
  {
    && (forall u :: u != who ==> t.List(u) == s.List(u) && Bal(t.free, c.share, u) == Bal(s.free, c.share, u))
    && Entitled(c, t, who) == Entitled(c, s, who) + shares
    && (forall q :: q != s.phase ==> PhaseTotal(t.List(who), c.share, q) == PhaseTotal(s.List(who), c.share, q))
    && PhaseTotal(t.List(who), c.share, s.phase) >= PhaseTotal(s.List(who), c.share, s.phase)
  }

  /** `who` staked `x` into the current phase, worth `shares`, and the quota is not booked yet. */
  ghost predicate Deposited(c: Config, s: State, t: State, who: AccountId, x: nat, shares: nat)
    requires 1 <= s.phase <= c.N()
  {
    && SamePosition(s, t) && IouMinted(c, s, t, who, x) && SharesSold(c, s, t, who, shares)
    && SharesAdded(c, s, t, shares) && PauseKept(s, t)
  }

  /** Of `shares` just sold, no more is locked than the part due in later phases. */
  ghost predicate LateShare(c: Config, s: State, t: State, who: AccountId, shares: nat)
  {
    (PhaseTotal(t.List(who), c.share, s.phase)
        - PhaseTotal(s.List(who), c.share, s.phase)) * s.left <= shares * (s.left - 1)
  }

  /** Of `shares` just sold, one payout is free at once: an equal part for each phase left, rounded up. */
  ghost predicate FirstPayout(c: Config, s: State, t: State, who: AccountId, shares: nat)
  {
    var paid := Bal(t.free, c.share, who) - Bal(s.free, c.share, who);
    shares <= paid * s.left < shares + s.left
  }

  /** So it is with a stake that leaves room in its phase; one that fills it brings everybody another payout. */
  ghost predicate PaysFirst(c: Config, s: State, t: State, who: AccountId, x: nat)
    requires InPhase(c, s)
  {
    s.used + x < c.At(s.phase).quota ==> FirstPayout(c, s, t, who, c.At(s.phase).exchange * x)
  }

  lemma PaysSame(c: Config, s: State, m: State, t: State, who: AccountId, x: nat)
    requires InPhase(c, s) && Bal(t.free, c.share, who) == Bal(m.free, c.share, who)
    ensures PaysFirst(c, s, m, who, x) ==> PaysFirst(c, s, t, who, x)
  {
  }

  /** Of what an account was sold in each phase, at most the part due in later phases is
      still locked: (phases left - 1) out of (phases from that one on). */
  ghost predicate VestedShare(c: Config, s: State, u: AccountId)
  {
    forall p :: 1 <= p <= c.N() ==> ShareAt(c, s, u, p)
  }

  ghost predicate ShareAt(c: Config, s: State, u: AccountId, p: nat)
    requires 1 <= p <= c.N()
  {
    ShareOf(c, s, u, p, Bal(s.free, c.At(p).iou, u))
  }

  /** The same for `b` IOUs of the phase, whoever has them. */
  ghost predicate ShareOf(c: Config, s: State, u: AccountId, p: nat, b: nat)
    requires 1 <= p <= c.N()
  {
    PhaseTotal(s.List(u), c.share, p) * (c.N() - p + 1) <= c.At(p).exchange * b * (s.left - 1)
  }

  /** An account whose shares cover its IOUs, none of them locked for longer than the schedule says.
      That is enough to hand all its IOUs back, though not necessary. */
  ghost predicate Pristine(c: Config, s: State, u: AccountId)
  {
    && u != c.collection && VestedShare(c, s, u)
    && c.Weigh(Held(c, s, u), c.N()) <= Entitled(c, s, u)
  }

  /** The IOUs of a stake: each phase's share of the cumulative stake, to `who` alone. */
  ghost predicate IousSold(c: Config, s: State, t: State, who: AccountId, lo: nat, hi: nat)
  {
    forall p :: 1 <= p <= c.N() ==>
      && t.Issued(c.At(p).iou) == s.Issued(c.At(p).iou) + c.Overlap(p, lo, hi)
      && forall u ::
           Bal(t.free, c.At(p).iou, u) == Bal(s.free, c.At(p).iou, u) + if u == who then c.Overlap(p, lo, hi) else 0
  }

  /** `who` is entitled to `shares` more, free or locked; nobody else's entitlement changes. */
  ghost predicate EntitledTo(c: Config, s: State, t: State, who: AccountId, shares: int)
  {
    && (forall u :: Entitled(c, t, u) == Entitled(c, s, u) + if u == who then shares else 0)
    && t.Issued(c.share) + t.Locked() == s.Issued(c.share) + s.Locked() + shares
  }

  /** Nobody's locked shares run ahead of the schedule because `who` staked. */
  ghost predicate VestingKept(c: Config, s: State, t: State, who: AccountId, lo: nat, hi: nat)
  {
    forall u, p, b: nat :: 1 <= p <= c.N() && ShareOf(c, s, u, p, b) ==>
      ShareOf(c, t, u, p, b + if u == who then c.Overlap(p, lo, hi) else 0)
  }

  /** `who` staked `x` in all, over as many phases as it took.  This is what staking means:
      where the schedule stands, which IOUs came out, and who is entitled to how many
      shares, all as functions of the cumulative stake before and after. */
  ghost predicate StakedTo(c: Config, s: State, t: State, who: AccountId, x: nat)
  {
    && InPhase(c, s) && InPhase(c, t) && Cum(c, t) == Cum(c, s) + x
    && IousSold(c, s, t, who, Cum(c, s), Cum(c, t))
    && EntitledTo(c, s, t, who, c.Shares(Cum(c, s), Cum(c, t)))
    && OthersKept(c, s, t) && PauseKept(s, t) && VestingKept(c, s, t, who, Cum(c, s), Cum(c, t))
  }

  // ---------------------------------------------------------------- payout rounds

  /** `amount` shares minted to `u`, and noticed by the bonus index. */
  ghost predicate SharesMinted(c: Config, s: State, t: State, u: AccountId, amount: nat)
  {
    && SamePosition(s, t) && t.unreleased == s.unreleased && OnlyShares(c, s, t) && PauseKept(s, t)
    && t.Issued(c.share) == s.Issued(c.share) + amount
    && (forall v :: Bal(t.free, c.share, v) == Bal(s.free, c.share, v) + if v == u then amount else 0)
    && (!s.everPaused && Tracked(c, s) ==> Tracked(c, t) && t.circulation == s.circulation + amount)
  }

  lemma NothingMinted(c: Config, s: State, u: AccountId)
    ensures SharesMinted(c, s, s, u, 0)
  {
  }

  lemma MintsAddUp(c: Config, s: State, m: State, t: State, u: AccountId, x: nat, y: nat)
    requires SharesMinted(c, s, m, u, x) && SharesMinted(c, m, t, u, y)
    ensures SharesMinted(c, s, t, u, x + y)
  {
  }

  lemma RoomAfterMint(c: Config, s: State, m: State, u: AccountId, x: nat, y: nat, all: nat)
    requires RoomFor(c, s, all) && SharesMinted(c, s, m, u, x) && x + y <= all
    ensures RoomFor(c, m, y)
  {
  }

  /** `u`'s turn in a payout round. */
  ghost predicate AccountPaid(c: Config, s: State, t: State, u: AccountId)
  {
    var kept := Released(s.List(u));
    && SamePosition(s, t) && OnlyShares(c, s, t) && SharesAdded(c, s, t, 0) && PauseKept(s, t)
    && t.unreleased == (if kept == [] then s.unreleased - {u} else (s.unreleased - {u})[u := kept])
    && (forall v :: Bal(t.free, c.share, v) == Bal(s.free, c.share, v) + if v == u then PaidOut(s.List(u)) else 0)
  }

  ghost predicate Unpaid(c: Config, s: State, t: State, u: AccountId)
  {
    u in t.unreleased && t.unreleased[u] == s.List(u) && u in s.unreleased
        && Bal(t.free, c.share, u) == Bal(s.free, c.share, u)
  }

  ghost predicate PaidOff(c: Config, s: State, t: State, u: AccountId)
  {
    && (u in t.unreleased ==> u in s.unreleased && t.unreleased[u] != [])
    && t.List(u) == Released(s.List(u))
    && Bal(t.free, c.share, u) == Bal(s.free, c.share, u) + PaidOut(s.List(u))
  }

  /** A payout round under way: the accounts in `todo` are still to be paid. */
  ghost predicate PartlyPaid(c: Config, s: State, t: State, todo: set<AccountId>)
  {
    (forall u :: u in todo ==> Unpaid(c, s, t, u)) && (forall u :: u !in todo ==> PaidOff(c, s, t, u))
  }

  ghost predicate RoundUnderWay(c: Config, s: State, t: State, todo: set<AccountId>)
  {
    && SamePosition(s, t) && OnlyShares(c, s, t) && SharesAdded(c, s, t, 0) && PauseKept(s, t)
    && PartlyPaid(c, s, t, todo)
  }

  lemma PaysOneList(c: Config, s: State, m: State, t: State, rest: set<AccountId>, u: AccountId)
    requires u !in rest && PartlyPaid(c, s, m, rest + {u})
    requires var kept := Released(s.List(u));
             t.unreleased == if kept == [] then m.unreleased - {u} else (m.unreleased - {u})[u := kept]
    requires forall v :: Bal(t.free, c.share, v) == Bal(m.free, c.share, v) + if v == u then PaidOut(s.List(u)) else 0
    ensures PartlyPaid(c, s, t, rest)
  {
    hide Released, PaidOut;
    assert u in rest + {u} && Unpaid(c, s, m, u);
    forall v | v in rest ensures Unpaid(c, s, t, v) { assert v in rest + {u} && Unpaid(c, s, m, v); }
    forall v | v !in rest ensures PaidOff(c, s, t, v) {
      if v != u { assert v !in rest + {u} && PaidOff(c, s, m, v); }
    }
  }

  lemma SharesAddUp(c: Config, s: State, m: State, t: State)
    requires SharesAdded(c, s, m, 0) && SharesAdded(c, m, t, 0) && PauseKept(s, m)
    ensures SharesAdded(c, s, t, 0)
  {
  }

  lemma PaysOneMore(c: Config, s: State, m: State, t: State, todo: set<AccountId>, u: AccountId)
    requires u in todo && RoundUnderWay(c, s, m, todo) && AccountPaid(c, m, t, u)
    ensures RoundUnderWay(c, s, t, todo - {u})
  {
    assert Unpaid(c, s, m, u) && m.List(u) == s.List(u);
    assert todo - {u} + {u} == todo;
    PaysOneList(c, s, m, t, todo - {u}, u);
    SharesAddUp(c, s, m, t);
  }

  /** Replacing, or removing, one list changes the locked total by the difference. */
  lemma RoundStep(s: State, u: AccountId, kept: seq<Pack>)
    ensures ListTotal(s.List(u)) <= s.Locked()
    ensures forall t: State ::
        t.unreleased == (if kept == [] then s.unreleased - {u} else (s.unreleased - {u})[u := kept]) ==>
      t.Locked() == s.Locked() - ListTotal(s.List(u)) + ListTotal(kept)
  {
    LockedSet(s, u, kept);
    LockedRemove(s, u);
    forall t: State | t.unreleased == (if kept == [] then s.unreleased - {u} else (s.unreleased - {u})[u := kept])
      ensures t.Locked() == s.Locked() - ListTotal(s.List(u)) + ListTotal(kept)
    {
      assert (s.unreleased - {u})[u := kept] == s.unreleased[u := kept];
      LockedSame(t, s.(unreleased := t.unreleased));
    }
  }

  /** 128-bit room in the ledger, and in the bonus index, for a payout of `amount` shares. */
  ghost predicate RoomFor(c: Config, s: State, amount: nat)
  {
    && s.Issued(c.share) + amount <= MAX_BALANCE
    && (!s.everPaused ==> Tracked(c, s) && s.circulation + amount <= MAX_BALANCE)
  }

  lemma RoundStarts(c: Config, s: State)
    ensures RoundUnderWay(c, s, s, s.unreleased.Keys)
  {
    assert Released([]) == [];
  }

  /** Whoever is next in a round has a list in shape, and there is room for paying it. */
  lemma NextInRound(c: Config, s: State, t: State, todo: set<AccountId>, u: AccountId)
    requires PacksVest(c, s) && RoomFor(c, s, s.Locked()) && RoundUnderWay(c, s, t, todo) && u in todo
    ensures u in t.unreleased && u != c.collection && ListVests(t.unreleased[u], c.share, u, c.N(), t.left)
    ensures RoomFor(c, t, t.Locked())
  {
    assert Unpaid(c, s, t, u);
  }

  lemma RoundEnds(c: Config, s: State, t: State)
    requires RoundUnderWay(c, s, t, {})
    ensures PayoutRound(c, s, t)
  {
    AllPaid(c, s, t);
  }

  lemma AllPaid(c: Config, s: State, t: State)
    requires PartlyPaid(c, s, t, {})
    ensures PaidLists(c, s, t)
  {
    forall u
      ensures (u in t.unreleased ==> u in s.unreleased && t.unreleased[u] != []) && t.List(u) == Released(s.List(u))
      ensures Bal(t.free, c.share, u) == Bal(s.free, c.share, u) + PaidOut(s.List(u))
    {
      assert PaidOff(c, s, t, u);
    }
  }

  lemma PaidAccount(c: Config, s: State, m: State, t: State, u: AccountId)
    requires SharesMinted(c, s, m, u, PaidOut(s.List(u)))
    requires ListTotal(Released(s.List(u))) + PaidOut(s.List(u)) == ListTotal(s.List(u))
    requires t.unreleased == if Released(s.List(u)) == [] then s.unreleased - {u}
        else (s.unreleased - {u})[u := Released(s.List(u))]
    requires t.free == m.free && t.issuance == m.issuance && t.accountShares == m.accountShares
    requires t.circulation == m.circulation
    requires t.paused == m.paused && t.everPaused == m.everPaused && SamePosition(m, t)
    ensures AccountPaid(c, s, t, u)
  {
    RoundStep(s, u, Released(s.List(u)));
    assert t.Locked() == s.Locked() - PaidOut(s.List(u));
  }

  /** A payout round moves shares from locked to free and changes nobody's entitlement. */
  lemma PayoutRoundEntitles(c: Config, s: State, t: State, u: AccountId)
    requires PacksVest(c, s) && PaidLists(c, s, t)
    ensures Entitled(c, t, u) == Entitled(c, s, u)
  {
    ReleasedTotals(s.List(u), c.share, u, c.N(), s.left);
  }

  /** ... and leaves every list in step with the phase after. */
  lemma PayoutRoundVests(c: Config, s: State, t: State)
    requires PacksVest(c, s) && PaidLists(c, s, t) && s.left >= 1
    ensures forall u :: u in t.unreleased ==>
      u != c.collection && s.left > 2 && ListVests(t.unreleased[u], c.share, u, c.N(), s.left - 1)
  {
    forall u | u in t.unreleased
      ensures u != c.collection && s.left > 2 && ListVests(t.unreleased[u], c.share, u, c.N(), s.left - 1)
    {
      assert s.List(u) == s.unreleased[u] && t.List(u) == t.unreleased[u];
      ReleasedVests(s.unreleased[u], c.share, u, c.N(), s.left);
    }
  }

  lemma PayoutRoundShareAt(c: Config, s: State, t: State, u: AccountId, p: nat, b: nat)
    requires PacksVest(c, s) && t.List(u) == Released(s.List(u)) && 1 <= p <= c.N()
    requires t.left == if s.left >= 2 then s.left - 1 else s.left
    requires ShareOf(c, s, u, p, b)
    ensures ShareOf(c, t, u, p, b)
  {
    var l := s.List(u);
    var locked, paid := PhaseTotal(l, c.share, p), PhasePaid(l, c.share, p);
    ReleasedTotals(l, c.share, u, c.N(), s.left);
    PaysAverage(l, c.share, u, c.N(), s.left, p);
    assert PhaseTotal(t.List(u), c.share, p) == locked - paid;
    if s.left >= 2 {
      ShareAfterPayout(locked, paid, s.left - 1, c.N() - p + 1, c.At(p).exchange * b);
    }
  }

  // ---------------------------------------------------------------- room for one more stake

  /** Whatever still fits into the schedule fits into 128 bits. */
  lemma RoomForStake(c: Config, s: State, x: nat)
    requires c.WellFormed() && Core(c, s) && s.used + x <= c.At(s.phase).quota
    ensures s.Issued(c.At(s.phase).iou) + x <= MAX_BALANCE
    ensures s.Issued(c.share) + s.Locked() + c.At(s.phase).exchange * x <= c.Shares(0, c.Capacity())
    ensures c.Shares(0, c.Capacity()) + c.N() <= MAX_BALANCE
    ensures !s.everPaused ==> s.circulation + s.Locked() + c.At(s.phase).exchange * x <= c.Shares(0, c.Capacity())
  {
    var p, cum := s.phase, Cum(c, s);
    UptoMono(c, p, c.N());
    OverlapInPhase(c, p, cum, cum + x);
    OverlapsAdd(c, 0, cum, cum + x);
    SharesGrow(c, 0, cum + x, c.Capacity());
    UptoMono(c, p - 1, p);
  }

  /** A fresh stake of `x` fits, when its pack is made and when what stays locked is registered. */
  lemma FreshPackFits(c: Config, s: State, who: AccountId, x: nat, later: nat)
    requires c.WellFormed() && Core(c, s) && s.used + x <= c.At(s.phase).quota
    requires later <= c.At(s.phase).exchange * x
    ensures c.At(s.phase).exchange * x <= MAX_BALANCE
    ensures SplitFits(c.At(s.phase).exchange * x, s.left)
    ensures s.left >= 2 ==> SplitFits(PhaseTotal(s.List(who), c.share, s.phase) + later, s.left - 1)
  {
    RoomForStake(c, s, x);
    SmallSplitFits(c.At(s.phase).exchange * x, s.left);
    OthersTotals(s.List(who), c.share, s.phase);
    LockedSet(s, who, []);
    if s.left >= 2 { SmallSplitFits(PhaseTotal(s.List(who), c.share, s.phase) + later, s.left - 1); }
  }

  /** With generous exchange rates neither of the two splits is ever uneven. */
  lemma FreshPackSplits(c: Config, p: nat, left: nat, x: nat, older: nat)
    requires c.Generous() && 1 <= p <= c.N() && 1 <= left <= c.N() && x > 0
    ensures var b := c.At(p).exchange * x;
            && SplitsEvenly(b, left) && Portion(b, left) <= b
            && (left >= 2 ==> SplitsEvenly(older + (b - Portion(b, left)), left - 1))
  {
    var b, n := c.At(p).exchange * x, c.N() - 1;
    MulMono(1, x, c.At(p).exchange);
    assert b >= n * n;
    if left >= 2 { FreshStakeSplits(b, left, c.N(), older); }
  }

  /** `who`'s list, in the current phase, holds `later` more; nobody else's changed. */
  ghost predicate ListsGrow(c: Config, s: State, t: State, who: AccountId, later: nat)
  {
    && (forall u :: u != who ==> t.List(u) == s.List(u))
    && t.Locked() == s.Locked() + later && ListTotal(t.List(who)) == ListTotal(s.List(who)) + later
    && (forall q :: PhaseTotal(t.List(who), c.share, q) == PhaseTotal(s.List(who), c.share, q) + if q == s.phase
         then later else 0)
  }

  /** The lists after a pack was registered. */
  lemma RegisterLaw(c: Config, s: State, t: State, who: AccountId, p: Pack, l: seq<Pack>)
    requires PacksVest(c, s) && s.left >= 1 && t.left == s.left && who != c.collection && p.phase == s.phase
    requires t.unreleased == s.unreleased[who := l]
    requires ListVests(l, c.share, who, c.N(), s.left) && ListTotal(l) == ListTotal(s.List(who)) + p.Total()
    requires forall q ::
      PhaseTotal(l, c.share, q) == PhaseTotal(s.List(who), c.share, q) + if q == p.phase then p.Total() else 0
    ensures PacksVest(c, t) && ListsGrow(c, s, t, who, p.Total())
  {
    LockedSet(s, who, l);
    LockedSame(t, s.(unreleased := s.unreleased[who := l]));
  }

  /** Registering a fresh pack `p` that was just paid its first term. */
  lemma RegisterFresh(c: Config, s: State, t: State, p: Pack)
    requires PacksVest(c, s) && s.left >= 2 && t.left == s.left && p.owner != c.collection && p.phase == s.phase
    requires Vests(p, c.share, p.owner, c.N(), s.left)
    requires Registered(s.unreleased, p).Some?
    requires t.unreleased == s.unreleased[p.owner := Registered(s.unreleased, p).value]
    ensures PacksVest(c, t) && ListsGrow(c, s, t, p.owner, p.Total())
  {
    var l := s.List(p.owner);
    if p.owner in s.unreleased {
      var terms, total := (c.N() - p.phase + 1, s.left - 1), PhaseTotal(l, c.share, p.phase) + p.Total();
      MergedVests(l, p, c.share, p.owner, c.N(), s.left, terms, total);
      RegisterLaw(c, s, t, p.owner, p, Merged(l, p).value);
    } else {
      AppendTotals([], p);
      assert [] + [p] == [p];
      RegisterLaw(c, s, t, p.owner, p, [p]);
    }
  }

  /** It fails exactly where the account already has a list, and its locked shares of the phase
      no longer split evenly. */
  lemma RegisterFreshFails(c: Config, s: State, p: Pack)
    requires PacksVest(c, s) && s.left >= 2
    requires Vests(p, c.share, p.owner, c.N(), s.left)
    requires SplitFits(PhaseTotal(s.List(p.owner), c.share, p.phase) + p.Total(), s.left - 1)
    ensures Registered(s.unreleased, p).None? <==>
      p.owner in s.unreleased && !SplitsEvenly(PhaseTotal(s.List(p.owner), c.share, p.phase) + p.Total(), s.left - 1)
  {
    if p.owner in s.unreleased {
      var l := s.List(p.owner);
      var total := PhaseTotal(l, c.share, p.phase) + p.Total();
      MergedVests(l, p, c.share, p.owner, c.N(), s.left, (c.N() - p.phase + 1, s.left - 1), total);
      RepackedVests(p.owner, c.share, p.phase, total, c.N(), s.left);
    }
  }

  // ---------------------------------------------------------------- one phase's worth of staking

  lemma AddShares(u: nat, u': nat, n: nat, e: nat, b: nat, x: nat, k: nat)
    requires u <= u' && u * n <= e * b * k && (u' - u) * n <= e * x * k
    ensures u' * n <= e * (b + x) * k
  {
    assert u' * n == u * n + (u' - u) * n;
    assert e * (b + x) == e * b + e * x;
    assert (e * b + e * x) * k == e * b * k + e * x * k;
  }

  lemma IousApart(c: Config, p: nat, q: nat)
    requires c.AssetsDistinct() && 1 <= p <= c.N() && 1 <= q <= c.N() && p != q
    ensures c.At(p).iou != c.At(q).iou && c.At(p).iou != c.share
  {
    c.IouFound(p);
    c.IouFound(q);
  }

  lemma MintedAt(c: Config, s: State, t: State, who: AccountId, x: nat, p: nat)
    requires c.AssetsDistinct() && 1 <= s.phase <= c.N() && 1 <= p <= c.N()
    requires IouMinted(c, s, t, who, x)
    ensures t.Issued(c.At(p).iou) == s.Issued(c.At(p).iou) + if p == s.phase then x else 0
    ensures forall u ::
      Bal(t.free, c.At(p).iou, u) == Bal(s.free, c.At(p).iou, u) + if p == s.phase && u == who then x else 0
  {
    if p != s.phase { IousApart(c, p, s.phase); }
  }

  /** What a deposit does to the vested share of its owner. */
  lemma DepositShareAt(c: Config, s: State, t: State, who: AccountId, x: nat, u: AccountId, p: nat, b: nat)
    requires 1 <= s.phase <= c.N() && 1 <= p <= c.N() && t.left == s.left == c.N() - s.phase + 1
    requires if p == s.phase && u == who
             then PhaseTotal(s.List(u), c.share, p) <= PhaseTotal(t.List(u), c.share, p)
                  && LateShare(c, s, t, who, c.At(p).exchange * x)
             else PhaseTotal(s.List(u), c.share, p) == PhaseTotal(t.List(u), c.share, p)
    requires ShareOf(c, s, u, p, b)
    ensures ShareOf(c, t, u, p, b + if p == s.phase && u == who then x else 0)
  {
    if p == s.phase && u == who {
      var before, after := PhaseTotal(s.List(u), c.share, p), PhaseTotal(t.List(u), c.share, p);
      AddShares(before, after, s.left, c.At(p).exchange, b, x, s.left - 1);
    }
  }

  /** `x` IOUs and `paid` free shares were credited to `who`. */
  ghost predicate Credits(c: Config, s: State, t: State, who: AccountId, iou: AssetId, x: nat, paid: nat)
  {
    && (forall a, u :: Bal(t.free, a, u) ==
          Bal(s.free, a, u) + (if a == iou && u == who then x else 0) + (if a == c.share && u == who then paid else 0))
    && (forall a :: t.Issued(a) == s.Issued(a) + (if a == iou then x else 0) + (if a == c.share then paid else 0))
  }

  /** `amount` of one asset was minted to `u`; nothing else moved. */
  ghost predicate AssetMinted(s: State, t: State, a: AssetId, u: AccountId, amount: nat)
  {
    SamePosition(s, t) && t.unreleased == s.unreleased && MintedIn(s.free, s.issuance, t.free, t.issuance, a, u, amount)
  }

  lemma StillMinted(s: State, m: State, t: State, a: AssetId, u: AccountId, amount: nat)
    requires AssetMinted(s, m, a, u, amount)
    requires SamePosition(m, t) && t.unreleased == m.unreleased && t.free == m.free && t.issuance == m.issuance
    ensures AssetMinted(s, t, a, u, amount)
  {
  }

  lemma MintedLaw(s: State, t: State, a: AssetId, u: AccountId, amount: nat)
    requires SamePosition(s, t) && t.unreleased == s.unreleased
    requires t.free == Credited(s.free, a, u, amount) && t.issuance == With(s.issuance, a, Get(s.issuance, a) + amount)
    ensures AssetMinted(s, t, a, u, amount)
  {
  }

  ghost predicate AssetBurned(s: State, t: State, a: AssetId, u: AccountId, amount: nat)
  {
    SamePosition(s, t) && t.unreleased == s.unreleased && BurnedIn(s.free, s.issuance, t.free, t.issuance, a, u, amount)
  }

  ghost predicate AssetMoved(s: State, t: State, a: AssetId, from: AccountId, to: AccountId, amount: nat)
  {
    && SamePosition(s, t) && t.unreleased == s.unreleased && t.issuance == s.issuance && SameIndex(s, t)
    && MovedIn(s.free, t.free, a, from, to, amount)
  }

  ghost predicate SameIndex(s: State, t: State)
  {
    && t.accountShares == s.accountShares && t.circulation == s.circulation
    && t.paused == s.paused && t.everPaused == s.everPaused
  }

  lemma IouThenShares(c: Config, s: State, m: State, t: State, who: AccountId, iou: AssetId, x: nat, paid: nat)
    requires iou != c.share && AssetMinted(s, m, iou, who, x) && SameIndex(s, m)
    requires SharesMinted(c, m, t, who, paid)
    ensures Credits(c, s, t, who, iou, x, paid) && PauseKept(s, t)
    ensures !s.everPaused && Tracked(c, s) ==> Tracked(c, t) && t.circulation == s.circulation + paid
  {
  }

  lemma TrackedKept(c: Config, s: State, m: State, iou: AssetId, who: AccountId, x: nat)
    requires iou != c.share && AssetMinted(s, m, iou, who, x) && SameIndex(s, m)
    ensures Tracked(c, s) ==> Tracked(c, m)
    ensures m.Issued(c.share) == s.Issued(c.share)
  {
  }

  /** ... and `later` more were locked for the current phase: together that is a deposit. */
  lemma DepositLaw(c: Config, s: State, t: State, who: AccountId, x: nat, paid: nat, later: nat)
    requires c.AssetsDistinct() && 1 <= s.phase <= c.N() && s.left >= 1 && SamePosition(s, t) && PauseKept(s, t)
    requires Credits(c, s, t, who, c.At(s.phase).iou, x, paid)
    requires ListsGrow(c, s, t, who, later)
    requires !s.everPaused && Tracked(c, s) ==> Tracked(c, t) && t.circulation == s.circulation + paid
    ensures Deposited(c, s, t, who, x, paid + later)
    ensures later * s.left <= (paid + later) * (s.left - 1) ==> LateShare(c, s, t, who, paid + later)
  {
    c.IouFound(s.phase);
  }

  /** A whole phase's sale to `who`, apart from booking the quota. */
  ghost predicate SoldInPhase(c: Config, s: State, t: State, who: AccountId, x: nat, shares: nat)
    requires 1 <= s.phase <= c.N()
  {
    && PacksVest(c, t) && Deposited(c, s, t, who, x, shares) && LateShare(c, s, t, who, shares)
    && FirstPayout(c, s, t, who, shares)
  }

  /** A pack just made for a stake of the current phase. */
  ghost predicate Fresh(c: Config, s: State, p: Pack, who: AccountId)
  {
    && p.Tidy() && !p.empty && p.asset == c.share && p.owner == who && p.phase == s.phase
    && p.TermsLeft() == s.left && p.major.termsTotal == s.left
    && p.After().Total() * s.left <= p.Total() * (s.left - 1)
    && p.Total() <= p.Paid() * s.left < p.Total() + s.left
    && (s.left >= 2 ==> SplitFits(PhaseTotal(s.List(who), c.share, s.phase) + p.After().Total(), s.left - 1))
  }

  /** The pack made for a stake of `x`. */
  ghost predicate ForStake(c: Config, s: State, who: AccountId, x: nat, p: Pack)
    requires InPhase(c, s)
  {
    && p.Tidy() && !p.empty && p.owner == who && p.asset == c.share && p.phase == s.phase
    && p.TermsLeft() == s.left && p.major.termsTotal == s.left
    && p.Total() == c.At(s.phase).exchange * x && p.Paid() == Portion(c.At(s.phase).exchange * x, s.left)
  }

  lemma FreshIsFresh(c: Config, s: State, who: AccountId, x: nat, p: Pack)
    requires c.WellFormed() && Core(c, s) && s.used + x <= c.At(s.phase).quota && ForStake(c, s, who, x, p)
    ensures Fresh(c, s, p, who)
    ensures s.Issued(c.At(s.phase).iou) + x <= MAX_BALANCE && RoomFor(c, s, p.Paid())
    ensures p.After().Total() == c.At(s.phase).exchange * x - Portion(c.At(s.phase).exchange * x, s.left)
  {
    p.ReleaseTidy();
    PortionIsCeiling(c.At(s.phase).exchange * x, s.left);
    FreshStakeShare(c.At(s.phase).exchange * x, s.left);
    FreshPackFits(c, s, who, x, p.After().Total());
    RoomForStake(c, s, x);
  }

  /** The account has packs, and its locked shares of the phase would no longer split evenly. */
  ghost predicate Uneven(c: Config, s: State, p: Pack, who: AccountId)
  {
    s.left >= 2 && who in s.unreleased
        && !SplitsEvenly(PhaseTotal(s.List(who), c.share, s.phase) + p.After().Total(), s.left - 1)
  }

  lemma NeverUneven(c: Config, s: State, who: AccountId, x: nat, p: Pack)
    requires c.Generous() && InPhase(c, s) && x > 0 && ForStake(c, s, who, x, p)
    ensures !Uneven(c, s, p, who)
  {
    p.ReleaseTidy();
    FreshPackSplits(c, s.phase, s.left, x, PhaseTotal(s.List(who), c.share, s.phase));
  }

  /** How a registration ends. */
  ghost predicate RegisterEnds(m: State, t: State, p: Pack, r: Outcome)
  {
    if p.empty then r.Done? && t.unreleased == m.unreleased
    else if Registered(m.unreleased, p).None? then r.Aborted?
    else r.Done? && t.unreleased == m.unreleased[p.owner := Registered(m.unreleased, p).value]
  }

  lemma FreshVests(c: Config, s: State, p: Pack, who: AccountId)
    requires InPhase(c, s) && Fresh(c, s, p, who)
    ensures p.After().Total() + p.Paid() == p.Total() && p.After().owner == who && p.After().phase == s.phase
    ensures p.After().empty <==> s.left == 1
    ensures s.left >= 2 ==> Vests(p.After(), c.share, who, c.N(), s.left)
    ensures s.left >= 2 ==> SplitFits(PhaseTotal(s.List(who), c.share, s.phase) + p.After().Total(), s.left - 1)
    ensures p.Total() <= p.Paid() * s.left < p.Total() + s.left
  {
    p.ReleaseTidy();
  }

  lemma RegisteredFresh(c: Config, s: State, t: State, who: AccountId, p: Pack, r: Outcome)
    requires InPhase(c, s) && PacksVest(c, s) && who != c.collection && Fresh(c, s, p, who)
    requires SamePosition(s, t) && RegisterEnds(s, t, p.After(), r)
    ensures !r.Failed?
    ensures r.Aborted? <==> Uneven(c, s, p, who)
    ensures r.Done? ==> PacksVest(c, t) && ListsGrow(c, s, t, who, p.After().Total())
  {
    hide *;
    FreshVests(c, s, p, who);
    LeftPhases(c, s);
    if s.left == 1 {
      NothingLater(c, s, t, who, p, r);
    } else {
      RegisteredLater(c, s, t, who, p.After(), r);
      UnevenLater(c, s, p, who);
    }
  }

  lemma LeftPhases(c: Config, s: State)
    requires InPhase(c, s)
    ensures s.left >= 1
  {
  }

  lemma NothingLater(c: Config, s: State, t: State, who: AccountId, p: Pack, r: Outcome)
    requires PacksVest(c, s) && s.left == 1 && SamePosition(s, t) && p.After().empty && RegisterEnds(s, t, p.After(), r)
    ensures r.Done? && !Uneven(c, s, p, who) && PacksVest(c, t) && ListsGrow(c, s, t, who, p.After().Total())
  {
    LockedSame(s, t);
    hide ListVests, PhaseTotal, ListTotal;
  }

  lemma UnevenLater(c: Config, s: State, p: Pack, who: AccountId)
    requires s.left >= 2
    ensures Uneven(c, s, p, who) <==>
      who in s.unreleased && !SplitsEvenly(PhaseTotal(s.List(who), c.share, s.phase) + p.After().Total(), s.left - 1)
  {
  }

  lemma RegisteredLater(c: Config, s: State, t: State, who: AccountId, q: Pack, r: Outcome)
    requires InPhase(c, s) && PacksVest(c, s) && who != c.collection && s.left >= 2 && SamePosition(s, t)
    requires q.owner == who && q.phase == s.phase && !q.empty && Vests(q, c.share, who, c.N(), s.left)
    requires SplitFits(PhaseTotal(s.List(who), c.share, s.phase) + q.Total(), s.left - 1)
    requires RegisterEnds(s, t, q, r)
    ensures !r.Failed?
    ensures r.Aborted? <==>
      who in s.unreleased && !SplitsEvenly(PhaseTotal(s.List(who), c.share, s.phase) + q.Total(), s.left - 1)
    ensures r.Done? ==> PacksVest(c, t) && ListsGrow(c, s, t, who, q.Total())
  {
    hide Vests, SplitFits, PhaseTotal, PacksVest, Registered, SplitsEvenly, ListsGrow, Pack.Total;
    RegisterFreshFails(c, s, q);
    if r.Done? { RegisterFresh(c, s, t, q); }
  }

  /** From the mints `m` and the registration `t` to the sale. */
  lemma SaleLaw(c: Config, s: State, m: State, t: State, who: AccountId, x: nat, p: Pack, r: Outcome)
    requires c.AssetsDistinct() && InPhase(c, s) && PacksVest(c, s) && who != c.collection && Fresh(c, s, p, who)
    requires Credits(c, s, m, who, c.At(s.phase).iou, x, p.Paid()) && PauseKept(s, m)
    requires !s.everPaused && Tracked(c, s) ==> Tracked(c, m) && m.circulation == s.circulation + p.Paid()
    requires m.unreleased == s.unreleased && RegisterEnds(m, t, p.After(), r)
    requires SamePosition(s, t) && t.free == m.free && t.issuance == m.issuance && SameIndex(m, t)
    ensures !r.Failed?
    ensures r.Aborted? <==> Uneven(c, s, p, who)
    ensures r.Done? ==> SoldInPhase(c, s, t, who, x, p.Total())
  {
    RegisteredFresh(c, s, t, who, p, r);
    if r.Done? {
      FreshVests(c, s, p, who);
      SoldLaw(c, s, m, t, who, x, p.Paid(), p.After().Total());
    }
  }

  lemma SoldLaw(c: Config, s: State, m: State, t: State, who: AccountId, x: nat, paid: nat, later: nat)
    requires c.AssetsDistinct() && InPhase(c, s) && PacksVest(c, t) && ListsGrow(c, s, t, who, later)
    requires Credits(c, s, m, who, c.At(s.phase).iou, x, paid) && PauseKept(s, m)
    requires !s.everPaused && Tracked(c, s) ==> Tracked(c, m) && m.circulation == s.circulation + paid
    requires SamePosition(s, t) && t.free == m.free && t.issuance == m.issuance && SameIndex(m, t)
    requires later * s.left <= (paid + later) * (s.left - 1) && paid + later <= paid * s.left < paid + later + s.left
    ensures SoldInPhase(c, s, t, who, x, paid + later)
  {
    assert Credits(c, s, t, who, c.At(s.phase).iou, x, paid);
    assert PauseKept(s, t);
    DepositLaw(c, s, t, who, x, paid, later);
  }

  /** The quota is booked after a deposit `m`; if it is full, the payout round `r` and the move
      to the next phase follow. */
  ghost predicate Booked(c: Config, s: State, m: State, r: State, t: State, x: nat)
    requires InPhase(c, s)
  {
    && (if s.used + x < c.At(s.phase).quota then r == m else PayoutRound(c, m, r))
    && SameBooks(r, t) && Advanced(c, s, t, x)
  }

  /** Only the position in the schedule differs. */
  ghost predicate SameBooks(r: State, t: State)
  {
    && t.free == r.free && t.issuance == r.issuance && t.unreleased == r.unreleased
    && t.accountShares == r.accountShares && t.circulation == r.circulation
    && t.paused == r.paused && t.everPaused == r.everPaused
  }

  ghost predicate Advanced(c: Config, s: State, t: State, x: nat)
    requires InPhase(c, s)
  {
    if s.used + x < c.At(s.phase).quota then t.phase == s.phase && t.used == s.used + x && t.left == s.left
    else if s.phase < c.N() then t.phase == s.phase + 1 && t.used == 0 && t.left == s.left - 1
    else t.phase == s.phase && t.used == c.At(s.phase).quota && t.left == s.left
  }

  lemma BookedPosition(c: Config, s: State, t: State, x: nat)
    requires c.WellFormed() && InPhase(c, s) && s.used + x <= c.At(s.phase).quota && x > 0
    requires Advanced(c, s, t, x)
    ensures InPhase(c, t) && Cum(c, t) == Cum(c, s) + x
    ensures forall p :: 1 <= p <= c.N() ==> c.Overlap(p, Cum(c, s), Cum(c, t)) == if p == s.phase then x else 0
    ensures c.Shares(Cum(c, s), Cum(c, t)) == c.At(s.phase).exchange * x
  {
    OverlapInPhase(c, s.phase, Cum(c, s), Cum(c, s) + x);
  }

  lemma BookedIous(c: Config, s: State, m: State, r: State, t: State, who: AccountId, x: nat, p: nat, u: AccountId)
    requires c.AssetsDistinct() && 1 <= s.phase <= c.N() && 1 <= p <= c.N()
    requires IouMinted(c, s, m, who, x) && (r == m || OnlyShares(c, m, r)) && SameBooks(r, t)
    ensures t.Issued(c.At(p).iou) == s.Issued(c.At(p).iou) + if p == s.phase then x else 0
    ensures Bal(t.free, c.At(p).iou, u) == Bal(s.free, c.At(p).iou, u) + if p == s.phase && u == who then x else 0
  {
    MintedAt(c, s, m, who, x, p);
    c.IouFound(p);
  }

  lemma BookedEntitles(c: Config, s: State, m: State, r: State, t: State, who: AccountId, shares: nat, u: AccountId)
    requires PacksVest(c, m) && SharesSold(c, s, m, who, shares) && (r == m || PaidLists(c, m, r)) && SameBooks(r, t)
    ensures Entitled(c, t, u) == Entitled(c, s, u) + if u == who then shares else 0
  {
    if r != m { PayoutRoundEntitles(c, m, r, u); }
    assert t.List(u) == r.List(u);
  }

  lemma BookedShareAt(c: Config, s: State, m: State, r: State, t: State, who: AccountId, x: nat, u: AccountId, p: nat,
                      b: nat)
    requires InPhase(c, s) && PacksVest(c, m) && m.left == s.left && 1 <= p <= c.N()
    requires SharesSold(c, s, m, who, c.At(s.phase).exchange * x) && LateShare(c, s, m, who, c.At(s.phase).exchange * x)
    requires if s.used + x < c.At(s.phase).quota then r == m else OnlyShares(c, m, r) && PaidLists(c, m, r)
    requires SameBooks(r, t) && Advanced(c, s, t, x)
    requires ShareOf(c, s, u, p, b)
    ensures ShareOf(c, t, u, p, b + if p == s.phase && u == who then x else 0)
  {
    var b' := b + if p == s.phase && u == who then x else 0;
    hide ShareOf, LateShare;
    DepositShareAt(c, s, m, who, x, u, p, b);
    assert t.List(u) == r.List(u);
    if s.used + x >= c.At(s.phase).quota {
      PayoutRoundShareAt(c, m, t, u, p, b');
    } else {
      ShareStays(c, m, t, u, p, b');
    }
  }

  lemma ShareStays(c: Config, m: State, t: State, u: AccountId, p: nat, b: nat)
    requires 1 <= p <= c.N() && ShareOf(c, m, u, p, b) && t.List(u) == m.List(u) && t.left == m.left
    ensures ShareOf(c, t, u, p, b)
  {
  }

  lemma BookedVests(c: Config, s: State, m: State, r: State, t: State, x: nat)
    requires InPhase(c, s) && PacksVest(c, m) && m.left == s.left
    requires (if s.used + x < c.At(s.phase).quota then r == m else PaidLists(c, m, r)) && SameBooks(r, t)
    requires Advanced(c, s, t, x)
    ensures PacksVest(c, t)
  {
    if s.used + x >= c.At(s.phase).quota { PayoutRoundVests(c, m, r); }
  }

  /** Deposit, booking and, if due, the move to the next phase are one phase's worth of staking. */
  lemma BookedStakes(c: Config, s: State, m: State, r: State, t: State, who: AccountId, x: nat)
    requires c.WellFormed() && InPhase(c, s) && s.used + x <= c.At(s.phase).quota && x > 0
    requires PacksVest(c, m) && Deposited(c, s, m, who, x, c.At(s.phase).exchange * x) && Booked(c, s, m, r, t, x)
    requires LateShare(c, s, m, who, c.At(s.phase).exchange * x)
    ensures StakedTo(c, s, t, who, x)
  {
    BookedPosition(c, s, t, x);
    BookedIousSold(c, s, m, r, t, who, x, Cum(c, s), Cum(c, t));
    BookedShares(c, s, m, r, t, who, x, c.At(s.phase).exchange * x);
    BookedVesting(c, s, m, r, t, who, x, Cum(c, s), Cum(c, t));
    BookedOthers(c, s, m, r, t, who, x);
  }

  lemma BookedIousSold(c: Config, s: State, m: State, r: State, t: State, who: AccountId, x: nat, lo: nat, hi: nat)
    requires c.AssetsDistinct() && 1 <= s.phase <= c.N()
    requires IouMinted(c, s, m, who, x) && (r == m || OnlyShares(c, m, r)) && SameBooks(r, t)
    requires forall p :: 1 <= p <= c.N() ==> c.Overlap(p, lo, hi) == if p == s.phase then x else 0
    ensures IousSold(c, s, t, who, lo, hi)
  {
    forall p, u | 1 <= p <= c.N()
      ensures t.Issued(c.At(p).iou) == s.Issued(c.At(p).iou) + c.Overlap(p, lo, hi)
      ensures Bal(t.free, c.At(p).iou, u) == Bal(s.free, c.At(p).iou, u) + if u == who then c.Overlap(p, lo, hi) else 0
    {
      BookedIous(c, s, m, r, t, who, x, p, u);
    }
  }

  lemma BookedShares(c: Config, s: State, m: State, r: State, t: State, who: AccountId, x: nat, shares: nat)
    requires 1 <= s.phase <= c.N()
    requires PacksVest(c, m) && SharesSold(c, s, m, who, shares) && SharesAdded(c, s, m, shares)
    requires (r == m || (PaidLists(c, m, r) && SharesAdded(c, m, r, 0))) && SameBooks(r, t)
    ensures EntitledTo(c, s, t, who, shares)
  {
    LockedSame(r, t);
    forall u ensures Entitled(c, t, u) == Entitled(c, s, u) + if u == who then shares else 0 {
      BookedEntitles(c, s, m, r, t, who, shares, u);
    }
  }

  lemma BookedVesting(c: Config, s: State, m: State, r: State, t: State, who: AccountId, x: nat, lo: nat, hi: nat)
    requires InPhase(c, s) && PacksVest(c, m) && m.left == s.left
    requires SharesSold(c, s, m, who, c.At(s.phase).exchange * x) && LateShare(c, s, m, who, c.At(s.phase).exchange * x)
    requires if s.used + x < c.At(s.phase).quota then r == m else OnlyShares(c, m, r) && PaidLists(c, m, r)
    requires SameBooks(r, t) && Advanced(c, s, t, x)
    requires forall p :: 1 <= p <= c.N() ==> c.Overlap(p, lo, hi) == if p == s.phase then x else 0
    ensures VestingKept(c, s, t, who, lo, hi)
  {
    hide ShareOf;
    forall u, p, b: nat | 1 <= p <= c.N() && ShareOf(c, s, u, p, b)
      ensures ShareOf(c, t, u, p, b + if u == who then c.Overlap(p, lo, hi) else 0)
    {
      BookedShareAt(c, s, m, r, t, who, x, u, p, b);
    }
  }

  lemma BookedOthers(c: Config, s: State, m: State, r: State, t: State, who: AccountId, x: nat)
    requires c.AssetsDistinct() && 1 <= s.phase <= c.N()
    requires IouMinted(c, s, m, who, x) && (r == m || OnlyShares(c, m, r)) && SameBooks(r, t)
    ensures OthersKept(c, s, t)
  {
    c.IouFound(s.phase);
  }

  /** The ledger and the index have room for the payout round that may follow a sale. */
  lemma RoomAfterSale(c: Config, s: State, m: State, who: AccountId, x: nat)
    requires c.WellFormed() && Core(c, s) && s.used + x <= c.At(s.phase).quota
    requires SoldInPhase(c, s, m, who, x, c.At(s.phase).exchange * x)
    ensures RoomFor(c, m, m.Locked()) && InPhase(c, m) && PacksVest(c, m) && SamePosition(s, m)
  {
    RoomForStake(c, s, x);
  }

  lemma BookedTracks(c: Config, s: State, m: State, r: State, t: State, shares: nat)
    requires IndexFollows(c, s, m, shares) && PauseKept(s, m)
    requires (r == m || (IndexFollows(c, m, r, 0) && PauseKept(m, r))) && SameBooks(r, t)
    ensures IndexFollows(c, s, t, shares)
  {
    LockedSame(r, t);
  }

  lemma PhaseTracks(c: Config, s: State, m: State, r: State, t: State, who: AccountId, x: nat)
    requires InPhase(c, s) && Deposited(c, s, m, who, x, c.At(s.phase).exchange * x) && Booked(c, s, m, r, t, x)
    ensures IndexFollows(c, s, t, c.At(s.phase).exchange * x)
  {
    BookedTracks(c, s, m, r, t, c.At(s.phase).exchange * x);
  }

  lemma PhaseVests(c: Config, s: State, m: State, r: State, t: State, who: AccountId, x: nat)
    requires InPhase(c, s) && PacksVest(c, m) && SamePosition(s, m) && Booked(c, s, m, r, t, x)
    ensures PacksVest(c, t)
  {
    BookedVests(c, s, m, r, t, x);
  }

  lemma PhasePays(c: Config, s: State, m: State, r: State, t: State, who: AccountId, x: nat)
    requires InPhase(c, s) && FirstPayout(c, s, m, who, c.At(s.phase).exchange * x) && Booked(c, s, m, r, t, x)
    ensures PaysFirst(c, s, t, who, x)
  {
    hide PayoutRound, Advanced;
  }

  /** One phase's worth of staking, complete. */
  lemma PhaseStaked(c: Config, s: State, m: State, r: State, t: State, who: AccountId, x: nat)
    requires c.WellFormed() && Core(c, s) && s.used + x <= c.At(s.phase).quota && x > 0 && who != c.collection
    requires SoldInPhase(c, s, m, who, x, c.At(s.phase).exchange * x)
    requires Booked(c, s, m, r, t, x)
    ensures StakedTo(c, s, t, who, x) && Core(c, t) && PaysFirst(c, s, t, who, x)
    ensures SumInts(Outstanding(c, t), c.N()) == SumInts(Outstanding(c, s), c.N()) + x
    ensures SoldAndBooked(c, s, t, who, x) && SoldByPhases(c, s, t, who, x)
  {
    PhasePays(c, s, m, r, t, who, x);
    hide PaysFirst, FirstPayout;
    PhaseTracks(c, s, m, r, t, who, x);
    PhaseVests(c, s, m, r, t, who, x);
    BookedStakes(c, s, m, r, t, who, x);
    SharesAre(c, s, t, x);
    StakingKeepsCore(c, s, t, who, x);
  }

  lemma SharesAre(c: Config, s: State, t: State, x: nat)
    requires InPhase(c, s) && InPhase(c, t) && Cum(c, t) == Cum(c, s) + x && s.used + x <= c.At(s.phase).quota
    ensures c.Shares(Cum(c, s), Cum(c, t)) == c.At(s.phase).exchange * x
  {
    OverlapInPhase(c, s.phase, Cum(c, s), Cum(c, t));
  }

  lemma TakesWhatFits(c: Config, s: State)
    requires c.WellFormed() && InPhase(c, s)
    ensures Cum(c, s) <= c.Capacity()
    ensures Cum(c, s) == c.Capacity() <==> s.used == c.At(s.phase).quota
    ensures c.Upto(s.phase - 1) + c.At(s.phase).quota == c.Upto(s.phase) <= c.Capacity()
    ensures s.phase == c.N() ==> c.Upto(s.phase) == c.Capacity()
  {
    PositionIsCanonical(c, s, s);
    UptoMono(c, s.phase, c.N());
  }

  /** `x` sold in one phase, the quota booked, and everybody paid a term if that fills it. */
  ghost predicate SoldAndBooked(c: Config, s: State, t: State, who: AccountId, x: nat)
    requires InPhase(c, s)
  {
    exists m, r :: SoldInPhase(c, s, m, who, x, c.At(s.phase).exchange * x) && Booked(c, s, m, r, t, x)
  }

  /** `x` sold in as many phases as it takes, one after the other. */
  ghost predicate SoldByPhases(c: Config, s: State, t: State, who: AccountId, x: nat)
    decreases x
  {
    && InPhase(c, s)
    && (SoldAndBooked(c, s, t, who, x)
        || exists m: State, y: nat ::
             0 < y < x && m.phase == s.phase + 1 && SoldAndBooked(c, s, m, who, y) && SoldByPhases(c, m, t, who, x - y))
  }

  lemma SoldFurther(c: Config, s: State, m: State, t: State, who: AccountId, x: nat, y: nat)
    requires InPhase(c, s) && x > 0 && y > 0 && m.phase == s.phase + 1
    requires SoldAndBooked(c, s, m, who, x) && SoldByPhases(c, m, t, who, y)
    ensures SoldByPhases(c, s, t, who, x + y)
  {
    hide SoldAndBooked;
    assert x + y - x == y;
  }

  /** Staking, with the laws it keeps. */
  ghost predicate StakeDone(c: Config, s: State, t: State, who: AccountId, x: nat)
  {
    && SoldByPhases(c, s, t, who, x)
    && StakedTo(c, s, t, who, x) && Core(c, t) && PaysFirst(c, s, t, who, x)
    && SumInts(Outstanding(c, t), c.N()) == SumInts(Outstanding(c, s), c.N()) + x
  }

  lemma StakePosition(c: Config, s: State, t: State, who: AccountId, x: nat)
    requires StakeDone(c, s, t, who, x)
    ensures InPhase(c, s) && InPhase(c, t) && Cum(c, t) == Cum(c, s) + x && Core(c, t)
  {
  }

  lemma CoreParts(c: Config, s: State)
    requires Core(c, s)
    ensures InPhase(c, s)
  {
  }

  lemma StakesAddUp(c: Config, s: State, m: State, t: State, who: AccountId, balance: nat, x: nat, y: nat)
    requires StakeDone(c, s, m, who, x) && StakeDone(c, m, t, who, y) && HereDone(c, s, m, balance, x, true)
    requires SoldAndBooked(c, s, m, who, x) && y > 0
    ensures StakeDone(c, s, t, who, x + y)
  {
    SoldFurther(c, s, m, t, who, x, y);
    hide SoldByPhases, SoldAndBooked;
    StakingAddsUp(c, s, m, t, who, x, y);
  }

  /** A stake is refused when it is zero, or when every phase is sold out. */
  ghost predicate StakeRefused(c: Config, s: State, balance: nat)
    requires InPhase(c, s)
  {
    balance == 0 || (Cum(c, s) == c.Capacity() && s.used + balance <= MAX_BALANCE)
  }

  /** How much of `balance` the remaining phases take. */
  ghost function Fitting(c: Config, s: State, balance: nat): int
    requires InPhase(c, s)
  {
    Min(balance, c.Capacity() - Cum(c, s))
  }

  /** The current phase took `iou` of `balance`; if it ended with something of the balance
      left, the next phase takes that on. */
  ghost predicate HereDone(c: Config, s: State, t: State, balance: nat, iou: nat, shifted: bool)
  {
    && InPhase(c, s) && InPhase(c, t) && 0 < iou <= balance
    && iou + (if shifted && iou < balance then Fitting(c, t, balance - iou) else 0) == Fitting(c, s, balance)
    && (shifted ==> t.phase == s.phase + 1 && s.used + iou == c.At(s.phase).quota)
    && (shifted && iou < balance ==> t.used == 0 && !StakeRefused(c, t, balance - iou))
  }

  /** A phase takes what fits into it, the rest goes on to the next one. */
  lemma HereFits(c: Config, s: State, t: State, balance: nat, iou: nat, shifted: bool)
    requires c.WellFormed() && InPhase(c, s) && InPhase(c, t) && Cum(c, t) == Cum(c, s) + iou
    requires iou == Min(balance, c.At(s.phase).quota - s.used) && iou > 0
    requires shifted == (s.used + iou == c.At(s.phase).quota && s.phase < c.N())
    requires shifted ==> t.phase == s.phase + 1 && t.used == 0
    ensures HereDone(c, s, t, balance, iou, shifted)
  {
    TakesWhatFits(c, s);
    TakesWhatFits(c, t);
    if shifted { UptoStrict(c, s.phase); }
  }

  lemma HereMeans(c: Config, s: State, t: State, balance: nat, iou: nat, shifted: bool)
    requires HereDone(c, s, t, balance, iou, shifted)
    ensures 0 < iou <= balance && InPhase(c, s) && InPhase(c, t)
    ensures iou + (if shifted && iou < balance then Fitting(c, t, balance - iou) else 0) == Fitting(c, s, balance)
    ensures shifted ==> t.phase == s.phase + 1 <= c.N()
    ensures shifted && iou < balance ==> t.used == 0 && !StakeRefused(c, t, balance - iou)
  {
  }

  lemma UptoStrict(c: Config, p: nat)
    requires c.WellFormed() && p < c.N()
    ensures c.Upto(p) < c.Capacity()
  {
    UptoMono(c, p + 1, c.N());
    assert c.phases[p].quota > 0;
  }

  lemma OutstandingGrows(c: Config, s: State, t: State, who: AccountId, lo: nat, hi: nat)
    requires IousSold(c, s, t, who, lo, hi) && who != c.collection && lo <= hi <= c.Capacity()
    ensures c.Weigh(Outstanding(c, t), c.N()) == c.Weigh(Outstanding(c, s), c.N()) + c.Shares(lo, hi)
    ensures SumInts(Outstanding(c, t), c.N()) == SumInts(Outstanding(c, s), c.N()) + hi - lo
  {
    forall i | 0 <= i < c.N()
      ensures Outstanding(c, t)[i] == Outstanding(c, s)[i] + c.Overlaps(lo, hi)[i]
    {
      assert c.At(i + 1) == c.phases[i];
    }
    WeighSum(c, Outstanding(c, s), c.Overlaps(lo, hi), Outstanding(c, t), c.N());
    OverlapsSum(c, lo, hi, c.N());
  }

  lemma CapGrows(c: Config, s: State, t: State, who: AccountId)
    requires InPhase(c, s) && InPhase(c, t) && Capped(c, s) && Cum(c, s) <= Cum(c, t)
    requires IousSold(c, s, t, who, Cum(c, s), Cum(c, t))
    requires EntitledTo(c, s, t, who, c.Shares(Cum(c, s), Cum(c, t)))
    ensures Capped(c, t)
    ensures c.Shares(0, Cum(c, t)) == c.Shares(0, Cum(c, s)) + c.Shares(Cum(c, s), Cum(c, t))
  {
    OverlapsAdd(c, 0, Cum(c, s), Cum(c, t));
  }

  /** Staking keeps the core laws, and the outstanding IOUs grow by the stake. */
  lemma StakingKeepsCore(c: Config, s: State, t: State, who: AccountId, x: nat)
    requires c.WellFormed() && Core(c, s) && StakedTo(c, s, t, who, x) && PacksVest(c, t) && who != c.collection
    requires IndexFollows(c, s, t, c.Shares(Cum(c, s), Cum(c, t)))
    ensures Core(c, t)
    ensures SumInts(Outstanding(c, t), c.N()) == SumInts(Outstanding(c, s), c.N()) + x
  {
    PositionIsCanonical(c, t, t);
    OutstandingGrows(c, s, t, who, Cum(c, s), Cum(c, t));
    CapGrows(c, s, t, who);
  }

  /** Staking twice in a row is staking the sum: same position, same IOUs, same entitlement. */
  lemma StakingAddsUp(c: Config, s: State, m: State, t: State, who: AccountId, x: nat, y: nat)
    requires StakedTo(c, s, m, who, x) && StakedTo(c, m, t, who, y)
    ensures StakedTo(c, s, t, who, x + y)
  {
    var lo, mid, hi := Cum(c, s), Cum(c, m), Cum(c, t);
    OverlapsAdd(c, lo, mid, hi);
    VestingAddsUp(c, s, m, t, who, lo, mid, hi);
    IousAddUp(c, s, m, t, who, lo, mid, hi);
    SharesOfBoth(c, s, m, t, who, c.Shares(lo, mid), c.Shares(mid, hi));
    hide VestingKept, IousSold, EntitledTo, Config.Shares, Config.Overlap;
  }

  lemma IousAddUp(c: Config, s: State, m: State, t: State, who: AccountId, lo: nat, mid: nat, hi: nat)
    requires IousSold(c, s, m, who, lo, mid) && IousSold(c, m, t, who, mid, hi)
    requires forall p :: 1 <= p <= c.N() ==> c.Overlap(p, lo, mid) + c.Overlap(p, mid, hi) == c.Overlap(p, lo, hi)
    ensures IousSold(c, s, t, who, lo, hi)
  {
    hide Config.Overlap;
  }

  lemma SharesOfBoth(c: Config, s: State, m: State, t: State, who: AccountId, x: int, y: int)
    requires EntitledTo(c, s, m, who, x) && EntitledTo(c, m, t, who, y)
    ensures EntitledTo(c, s, t, who, x + y)
  {
    hide Entitled;
  }

  lemma VestingAddsUp(c: Config, s: State, m: State, t: State, who: AccountId, lo: nat, mid: nat, hi: nat)
    requires VestingKept(c, s, m, who, lo, mid) && VestingKept(c, m, t, who, mid, hi)
    requires forall p :: 1 <= p <= c.N() ==> c.Overlap(p, lo, mid) + c.Overlap(p, mid, hi) == c.Overlap(p, lo, hi)
    ensures VestingKept(c, s, t, who, lo, hi)
  {
    hide ShareOf, Config.Overlap;
    forall u, p, b: nat | 1 <= p <= c.N() && ShareOf(c, s, u, p, b)
      ensures ShareOf(c, t, u, p, b + if u == who then c.Overlap(p, lo, hi) else 0)
    {
      var b' := b + if u == who then c.Overlap(p, lo, mid) else 0;
      assert ShareOf(c, m, u, p, b');
      assert ShareOf(c, t, u, p, b' + if u == who then c.Overlap(p, mid, hi) else 0);
    }
  }
}
