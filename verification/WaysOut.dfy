/** Which accounts can get out: pristine ones always, others exactly if their two pockets last, and
    some not before the next payout. */
module WaysOut {
  import opened Primitives
  import opened Books
  import opened VestingPacks
  import opened PackLists
  import opened SavingModel
  import opened SavingLaws
  import opened RedeemLaws
  import opened DispatchLaws
  import opened RoundTrip
  import opened TransferLaws
  import opened Pieces
  import opened SavingCalls

  /** What an account's IOUs of a phase are worth in shares, and what it has locked for that phase. */
  ghost function Worth(c: Config, s: State, u: AccountId, p: nat): nat
    requires 1 <= p <= c.N()
  {
    Bal(s.free, c.At(p).iou, u) * c.At(p).exchange
  }

  ghost function LockedFor(c: Config, s: State, u: AccountId, p: nat): nat
  {
    PhaseTotal(s.List(u), c.share, p)
  }

  // ---------------------------------------------------------------- one phase at a time

  /** The check, in terms of the pockets: they cover the redemption, and either the free one covers its
      part or both are emptied. */
  predicate Passes(free: nat, locked: nat, required: nat, part: nat)
  {
    required <= free + locked && (required - part <= free || required == free + locked)
  }

  /** That is the check of any account, for any IOUs that exist. */
  lemma CheckIs(c: Config, s: State, u: AccountId, p: nat, x: nat)
    requires c.WellFormed() && Core(c, s) && 1 <= p <= c.N() && x <= s.Issued(c.At(p).iou)
    ensures var free, required := Bal(s.free, c.share, u), x * c.At(p).exchange;
            && LockedPart(c, p, s.left, required) <= required
            && (CheckCanRedeem(c, s.left, free, s.List(u), p, x).Done?
                <==> Passes(free, LockedFor(c, s, u, p), required, LockedPart(c, p, s.left, required)))
  {
    RedeemFits(c, s, p, x);
    hide LockedPart, PhaseTotal, Core;
  }

  /** With `free` shares at hand, all IOUs of the phase go through. */
  ghost predicate Goes(c: Config, s: State, u: AccountId, p: nat, free: nat)
    requires 1 <= p <= c.N() && s.left >= 1 && LockedPart(c, p, s.left, Worth(c, s, u, p)) <= Worth(c, s, u, p)
  {
    var worth, locked := Worth(c, s, u, p), LockedFor(c, s, u, p);
    var part := LockedPart(c, p, s.left, worth);
    Passes(free, locked, worth, part) && !UnevenRest(s, locked, Pockets(free, locked, worth, part).1)
  }

  /** What they take of the free shares, as far as these last. */
  ghost function Demand(c: Config, s: State, u: AccountId, p: nat): int
    requires 1 <= p <= c.N() && s.left >= 1
  {
    var worth := Worth(c, s, u, p);
    worth - Min(LockedFor(c, s, u, p), LockedPart(c, p, s.left, worth))
  }

  lemma PocketsAfter(free: nat, locked: nat, required: nat, part: nat)
    requires part <= required && Passes(free, locked, required, part)
    ensures free - Pockets(free, locked, required, part).0 == Max(0, free - (required - Min(locked, part)))
  {
  }

  /** The order names phases, each once. */
  ghost predicate InOrder(c: Config, order: seq<nat>)
  {
    && (forall i :: 0 <= i < |order| ==> 1 <= order[i] <= c.N())
    && (forall i, j :: 0 <= i < j < |order| ==> order[i] != order[j])
  }

  ghost predicate PartsFit(c: Config, s: State, u: AccountId)
  {
    s.left >= 1 && forall p :: 1 <= p <= c.N() ==> LockedPart(c, p, s.left, Worth(c, s, u, p)) <= Worth(c, s, u, p)
  }

  /** One phase after the other, all its IOUs go through: computed from the pockets before the first
      of them. */
  ghost predicate AllGo(c: Config, s: State, u: AccountId, order: seq<nat>, free: nat)
    requires PartsFit(c, s, u) && InOrder(c, order)
    decreases |order|
  {
    order == []
    || (Goes(c, s, u, order[0], free) && AllGo(c, s, u, order[1..], Max(0, free - Demand(c, s, u, order[0]))))
  }

  lemma PartsDoFit(c: Config, s: State, u: AccountId)
    requires c.WellFormed() && Core(c, s) && HeldIsIssued(c, s, u)
    ensures PartsFit(c, s, u)
  {
    forall p | 1 <= p <= c.N() ensures LockedPart(c, p, s.left, Worth(c, s, u, p)) <= Worth(c, s, u, p) {
      CheckIs(c, s, u, p, Bal(s.free, c.At(p).iou, u));
    }
  }

  /** The first of them, as the module sees it. */
  lemma GoesIs(c: Config, s: State, u: AccountId, p: nat)
    requires c.WellFormed() && Core(c, s) && HeldIsIssued(c, s, u) && PartsFit(c, s, u) && 1 <= p <= c.N() && !s.paused
    ensures Goes(c, s, u, p, Bal(s.free, c.share, u)) <==>
      RedeemAccepted(c, s, u, c.At(p).iou, Bal(s.free, c.At(p).iou, u))
          && !LeavesUneven(c, s, u, p, Bal(s.free, c.At(p).iou, u))
  {
    c.IouFound(p);
    CheckIs(c, s, u, p, Bal(s.free, c.At(p).iou, u));
    hide LockedPart, PhaseTotal, CheckCanRedeem, Passes, Pockets, UnevenRest, Core;
  }

  /** Nothing changed for the phases still to come. */
  ghost predicate RestSame(c: Config, s: State, m: State, u: AccountId, order: seq<nat>)
    requires InOrder(c, order)
  {
    && m.left == s.left
    && forall i :: 0 <= i < |order| ==>
         Bal(m.free, c.At(order[i]).iou, u) == Bal(s.free, c.At(order[i]).iou, u)
         && LockedFor(c, m, u, order[i]) == LockedFor(c, s, u, order[i])
  }

  /** Handing in the first phase leaves the pockets for the others as they were computed. */
  lemma FirstGone(c: Config, s: State, m: State, t: State, u: AccountId, order: seq<nat>, free: nat)
    requires c.WellFormed() && u != c.collection && InOrder(c, order) && order != [] && PartsFit(c, s, u)
    requires PartsFit(c, m, u)
    requires RestSame(c, s, m, u, order) && Bal(m.free, c.share, u) == free && Goes(c, m, u, order[0], free)
    requires var p := order[0]; var x := Bal(m.free, c.At(p).iou, u);
             && CheckCanRedeem(c, m.left, free, m.List(u), p, x).Done? && RedeemedFor(c, m, t, u, p, x, false)
    ensures InOrder(c, order[1..]) && RestSame(c, s, t, u, order[1..])
    ensures Bal(t.free, c.share, u) == Max(0, free - Demand(c, s, u, order[0]))
    ensures Wealth(c, t, u) == Wealth(c, m, u) && Surplus(c, t, u) == Surplus(c, m, u)
    ensures forall q :: 1 <= q <= c.N() ==>
      Bal(t.free, c.At(q).iou, u) == if q == order[0] then 0 else Bal(m.free, c.At(q).iou, u)
  {
    var p := order[0];
    var x := Bal(m.free, c.At(p).iou, u);
    PieceLosesNothing(c, m, t, u, p, x, false);
    hide RedeemedFor, CheckCanRedeem, Wealth, Surplus;
    TakeIsPockets(c, m, u, p);
    var worth := Worth(c, m, u, p);
    PocketsAfter(free, LockedFor(c, m, u, p), worth, LockedPart(c, p, m.left, worth));
    hide PhaseTotal, RedeemTake, LockedPart, Pockets, Passes, Goes;
    assert Demand(c, m, u, p) == Demand(c, s, u, p);
    RestGoesOn(c, s, m, t, u, order);
  }

  lemma TakeIsPockets(c: Config, m: State, u: AccountId, p: nat)
    requires PartsFit(c, m, u) && 1 <= p <= c.N()
    ensures var worth := Worth(c, m, u, p);
            RedeemTake(c, m, u, p, Bal(m.free, c.At(p).iou, u))
            == Pockets(Bal(m.free, c.share, u), LockedFor(c, m, u, p), worth, LockedPart(c, p, m.left, worth))
  {
    hide LockedPart, PhaseTotal, Pockets;
  }

  lemma RestGoesOn(c: Config, s: State, m: State, t: State, u: AccountId, order: seq<nat>)
    requires InOrder(c, order) && order != [] && RestSame(c, s, m, u, order) && t.left == m.left
    requires forall q :: 1 <= q <= c.N() && q != order[0] ==>
               Bal(t.free, c.At(q).iou, u) == Bal(m.free, c.At(q).iou, u)
                   && LockedFor(c, t, u, q) == LockedFor(c, m, u, q)
    ensures InOrder(c, order[1..]) && RestSame(c, s, t, u, order[1..])
  {
    hide LockedFor;
    forall i | 0 <= i < |order[1..]|
      ensures Bal(t.free, c.At(order[1..][i]).iou, u) == Bal(s.free, c.At(order[1..][i]).iou, u)
      ensures LockedFor(c, t, u, order[1..][i]) == LockedFor(c, s, u, order[1..][i])
    {
      assert order[1..][i] == order[i + 1] && order[i + 1] != order[0];
    }
  }

  lemma GoesSame(c: Config, s: State, m: State, u: AccountId, p: nat, free: nat)
    requires 1 <= p <= c.N() && PartsFit(c, s, u) && PartsFit(c, m, u) && m.left == s.left
    requires Bal(m.free, c.At(p).iou, u) == Bal(s.free, c.At(p).iou, u)
    requires LockedFor(c, m, u, p) == LockedFor(c, s, u, p)
    ensures Goes(c, m, u, p, free) <==> Goes(c, s, u, p, free)
  {
    hide LockedPart, PhaseTotal, Pockets, Passes;
  }

  /** The first `k` phases of `order` were handed in; what becomes of the others is as it was computed. */
  ghost predicate HandedBack(c: Config, s: State, m: State, u: AccountId, order: seq<nat>, k: nat)
    requires k <= |order| && InOrder(c, order) && PartsFit(c, s, u)
  {
    && !m.paused && InOrder(c, order[k..]) && RestSame(c, s, m, u, order[k..])
    && Wealth(c, m, u) == Wealth(c, s, u) && Surplus(c, m, u) == Surplus(c, s, u)
    && (forall i :: 0 <= i < k ==> Bal(m.free, c.At(order[i]).iou, u) == 0)
    && (AllGo(c, s, u, order, Bal(s.free, c.share, u)) <==> AllGo(c, s, u, order[k..], Bal(m.free, c.share, u)))
  }

  lemma NothingHandedBack(c: Config, s: State, u: AccountId, order: seq<nat>)
    requires InOrder(c, order) && PartsFit(c, s, u) && !s.paused
    ensures HandedBack(c, s, s, u, order, 0)
  {
    assert order[0..] == order;
  }

  lemma AllHandedBack(c: Config, s: State, m: State, u: AccountId, order: seq<nat>)
    requires InOrder(c, order) && PartsFit(c, s, u) && HandedBack(c, s, m, u, order, |order|)
    ensures AllGo(c, s, u, order, Bal(s.free, c.share, u))
  {
    assert order[|order|..] == [];
  }

  lemma AllGoFrom(c: Config, s: State, u: AccountId, rest: seq<nat>, free: nat)
    requires PartsFit(c, s, u) && InOrder(c, rest) && rest != []
    ensures InOrder(c, rest[1..])
    ensures AllGo(c, s, u, rest, free) <==>
      Goes(c, s, u, rest[0], free) && AllGo(c, s, u, rest[1..], Max(0, free - Demand(c, s, u, rest[0])))
  {
    hide Goes, Demand, PartsFit;
  }

  /** One more phase: it goes through exactly if it was to, and then the rest is as computed. */
  lemma HandsInOneMore(c: Config, s: State, m: State, t: State, u: AccountId, order: seq<nat>, k: nat, r: Outcome)
    requires c.WellFormed() && u != c.collection && InOrder(c, order) && k < |order| && PartsFit(c, s, u)
    requires Core(c, m) && HeldIsIssued(c, m, u) && HandedBack(c, s, m, u, order, k)
    requires var iou := c.At(order[k]).iou; Ends(c, Transfer(iou, u, c.collection, Bal(m.free, iou, u)), m, t, r)
    ensures r.Done? ==> HandedBack(c, s, t, u, order, k + 1)
    ensures !r.Done? ==> !AllGo(c, s, u, order, Bal(s.free, c.share, u))
  {
    var p, free, rest := order[k], Bal(m.free, c.share, u), order[k..];
    var x := Bal(m.free, c.At(p).iou, u);
    assert rest[0] == p && rest[1..] == order[k + 1..] && InPhase(c, m);
    c.IouFound(p);
    PartsDoFit(c, m, u);
    assert c.IsIou(c.At(p).iou) && !m.paused;
    hide *;
    HandInOf(c, m, t, u, c.At(p).iou, x, r);
    HandInIs(c, m, t, u, p, x, r);
    SameHere(c, s, m, u, order, k);
    GoesSame(c, s, m, u, p, free);
    AllGoFrom(c, s, u, rest, free);
    OneMoreOf(c, s, m, t, u, order, k, r);
  }

  lemma HandInIs(c: Config, m: State, t: State, u: AccountId, p: nat, x: nat, r: Outcome)
    requires c.WellFormed() && Core(c, m) && InPhase(c, m) && HeldIsIssued(c, m, u) && PartsFit(c, m, u)
    requires 1 <= p <= c.N()
    requires x == Bal(m.free, c.At(p).iou, u) && c.IsIou(c.At(p).iou) && c.PhaseOf(c.At(p).iou) == p && !m.paused
    requires HandInEnds(c, m, t, u, c.At(p).iou, x, r)
    ensures r.Done? <==> Goes(c, m, u, p, Bal(m.free, c.share, u))
    ensures r.Done? ==> RedeemedFor(c, m, t, u, p, x, false)
    ensures r.Done? ==> CheckCanRedeem(c, m.left, Bal(m.free, c.share, u), m.List(u), p, x).Done?
  {
    hide RedeemedFor, LeavesUneven, CheckCanRedeem, Goes, Core;
    GoesIs(c, m, u, p);
  }

  lemma SameHere(c: Config, s: State, m: State, u: AccountId, order: seq<nat>, k: nat)
    requires InOrder(c, order) && k < |order| && PartsFit(c, s, u) && HandedBack(c, s, m, u, order, k)
    ensures 1 <= order[k] <= c.N() && m.left == s.left && !m.paused
    ensures Bal(m.free, c.At(order[k]).iou, u) == Bal(s.free, c.At(order[k]).iou, u)
    ensures LockedFor(c, m, u, order[k]) == LockedFor(c, s, u, order[k])
  {
    hide LockedFor, PartsFit, AllGo;
    assert order[k..][0] == order[k];
  }

  lemma OneMoreOf(c: Config, s: State, m: State, t: State, u: AccountId, order: seq<nat>, k: nat, r: Outcome)
    requires c.WellFormed() && u != c.collection && InOrder(c, order) && k < |order| && PartsFit(c, s, u)
    requires PartsFit(c, m, u)
    requires HandedBack(c, s, m, u, order, k) && order[k..][0] == order[k] && order[k..][1..] == order[k + 1..]
    requires InOrder(c, order[k..]) && InOrder(c, order[k..][1..])
    requires var free, p := Bal(m.free, c.share, u), order[k];
             && (Goes(c, m, u, p, free) <==> Goes(c, s, u, p, free)) && (r.Done? <==> Goes(c, m, u, p, free))
             && (AllGo(c, s, u, order[k..], free) <==>
                   Goes(c, s, u, p, free) && AllGo(c, s, u, order[k..][1..], Max(0, free - Demand(c, s, u, p))))
    requires var x := Bal(m.free, c.At(order[k]).iou, u);
             r.Done? ==> RedeemedFor(c, m, t, u, order[k], x, false)
                         && CheckCanRedeem(c, m.left, Bal(m.free, c.share, u), m.List(u), order[k], x).Done?
    ensures r.Done? ==> HandedBack(c, s, t, u, order, k + 1)
    ensures !r.Done? ==> !AllGo(c, s, u, order, Bal(s.free, c.share, u))
  {
    if r.Done? {
      var x := Bal(m.free, c.At(order[k]).iou, u);
      assert t.paused == m.paused by { StillOpen(c, m, t, u, order[k], x); }
      assert RestSame(c, s, m, u, order[k..]);
      hide AllGo, Goes, Demand, RedeemedFor, CheckCanRedeem, Wealth, Surplus, PartsFit, RestSame, InOrder;
      FirstGone(c, s, m, t, u, order[k..], Bal(m.free, c.share, u));
      forall i | 0 <= i < k + 1 ensures Bal(t.free, c.At(order[i]).iou, u) == 0 { }
    }
  }

  lemma StillOpen(c: Config, m: State, t: State, u: AccountId, p: nat, x: nat)
    requires 1 <= p <= c.N() && m.left >= 1 && RedeemedFor(c, m, t, u, p, x, false)
    ensures t.paused == m.paused
  {
  }

  // ---------------------------------------------------------------- pristine accounts

  /** Free shares the IOUs of the phases in `order` need beyond what is locked for them. */
  ghost function Needs(c: Config, s: State, u: AccountId, order: seq<nat>): int
    requires InOrder(c, order)
  {
    if order == [] then 0 else Worth(c, s, u, order[0]) - LockedFor(c, s, u, order[0]) + Needs(c, s, u, order[1..])
  }

  ghost predicate LockedInTime(c: Config, s: State, u: AccountId)
  {
    PartsFit(c, s, u) && forall p :: 1 <= p <= c.N() ==>
        LockedFor(c, s, u, p) <= LockedPart(c, p, s.left, Worth(c, s, u, p))
  }

  lemma PristineInTime(c: Config, s: State, u: AccountId)
    requires c.WellFormed() && Core(c, s) && Pristine(c, s, u) && HeldIsIssued(c, s, u)
    ensures LockedInTime(c, s, u)
  {
    PartsDoFit(c, s, u);
    forall p | 1 <= p <= c.N() ensures LockedFor(c, s, u, p) <= LockedPart(c, p, s.left, Worth(c, s, u, p)) {
      InTimeAt(c, s, u, p);
    }
  }

  lemma InTimeAt(c: Config, s: State, u: AccountId, p: nat)
    requires Core(c, s) && Pristine(c, s, u) && HeldIsIssued(c, s, u) && 1 <= p <= c.N()
    ensures s.left >= 1 && LockedFor(c, s, u, p) <= LockedPart(c, p, s.left, Worth(c, s, u, p))
  {
    assert ShareAt(c, s, u, p);
    SoldOrNone(c, s, u, p);
    LockedBelowWorth(c, s, u, p);
    hide ShareAt, PhaseTotal, Core, Pristine;
    Commutes(Bal(s.free, c.At(p).iou, u), c.At(p).exchange);
  }

  lemma {:induction false} InTimeGoes(c: Config, s: State, u: AccountId, order: seq<nat>, free: nat)
    requires LockedInTime(c, s, u) && InOrder(c, order) && Needs(c, s, u, order) <= free
    ensures AllGo(c, s, u, order, free)
    decreases |order|
  {
    if order != [] {
      var p := order[0];
      NeedsNothing(c, s, u, order[1..]);
      assert LockedFor(c, s, u, p) <= LockedPart(c, p, s.left, Worth(c, s, u, p));
      hide LockedPart, LockedFor, Worth;
      InTimeGoes(c, s, u, order[1..], Max(0, free - Demand(c, s, u, p)));
    }
  }

  lemma {:induction false} NeedsNothing(c: Config, s: State, u: AccountId, order: seq<nat>)
    requires LockedInTime(c, s, u) && InOrder(c, order)
    ensures Needs(c, s, u, order) >= 0
  {
    if order != [] {
      assert LockedFor(c, s, u, order[0]) <= LockedPart(c, order[0], s.left, Worth(c, s, u, order[0])) <= Worth(c, s, u,
          order[0]);
      hide LockedPart, LockedFor, Worth;
      NeedsNothing(c, s, u, order[1..]);
    }
  }

  /** The needs of the phases in `order`, each in its place. */
  ghost function Mask(c: Config, s: State, u: AccountId, order: seq<nat>): seq<int>
  {
    seq(c.N(), i requires 0 <= i < c.N() => if i + 1 in order
        then Worth(c, s, u, i + 1) - LockedFor(c, s, u, i + 1) else 0)
  }

  lemma {:induction false} NeedsIsMask(c: Config, s: State, u: AccountId, order: seq<nat>)
    requires InOrder(c, order)
    ensures Needs(c, s, u, order) == SumInts(Mask(c, s, u, order), c.N())
  {
    hide Worth, LockedFor;
    if order == [] {
      SumZero(Mask(c, s, u, order), c.N());
    } else {
      var p := order[0];
      NeedsIsMask(c, s, u, order[1..]);
      assert order == [p] + order[1..] && p !in order[1..];
      SumOne(Mask(c, s, u, order[1..]), Mask(c, s, u, order), p, Worth(c, s, u, p) - LockedFor(c, s, u, p), c.N());
    }
  }

  lemma {:induction false} MaskBelow(c: Config, xs: seq<int>, us: seq<int>, ms: seq<int>, k: nat)
    requires k <= c.N() == |xs| == |us| == |ms|
    requires forall i :: 0 <= i < k ==> us[i] <= c.phases[i].exchange * xs[i]
    requires forall i :: 0 <= i < k ==> ms[i] == 0 || ms[i] == c.phases[i].exchange * xs[i] - us[i]
    ensures SumInts(ms, k) <= c.Weigh(xs, k) - SumInts(us, k)
  {
    if k > 0 { MaskBelow(c, xs, us, ms, k - 1); }
  }

  /** A pristine account can hand in all its IOUs, phase after phase, in any order. */
  lemma PristineGoes(c: Config, s: State, u: AccountId, order: seq<nat>)
    requires c.WellFormed() && Core(c, s) && Pristine(c, s, u) && HeldIsIssued(c, s, u) && InOrder(c, order)
    ensures PartsFit(c, s, u) && AllGo(c, s, u, order, Bal(s.free, c.share, u))
  {
    PristineInTime(c, s, u);
    PristineCoversNeeds(c, s, u, order);
    hide Pristine, Core, PartsFit;
    InTimeGoes(c, s, u, order, Bal(s.free, c.share, u));
  }

  lemma PristineCoversNeeds(c: Config, s: State, u: AccountId, order: seq<nat>)
    requires Core(c, s) && Pristine(c, s, u) && HeldIsIssued(c, s, u) && InOrder(c, order)
    ensures Needs(c, s, u, order) <= Bal(s.free, c.share, u)
  {
    var l, xs, us := s.List(u), Held(c, s, u), LockedByPhase(c, s.List(u));
    assert ListVests(l, c.share, u, c.N(), s.left) && s.left >= 1;
    hide *;
    forall i | 0 <= i < c.N()
      ensures us[i] <= c.phases[i].exchange * xs[i]
      ensures Worth(c, s, u, i + 1) - LockedFor(c, s, u, i + 1) == c.phases[i].exchange * xs[i] - us[i]
    {
      NeedOf(c, s, u, i + 1);
    }
    PristineCovers(c, s, u);
    NeedsIsMask(c, s, u, order);
    ListByPhase(c, l, u, s.left);
    MaskAt(c, s, u, order);
    MaskBelow(c, xs, us, Mask(c, s, u, order), c.N());
  }

  lemma NeedOf(c: Config, s: State, u: AccountId, p: nat)
    requires Core(c, s) && Pristine(c, s, u) && HeldIsIssued(c, s, u) && 1 <= p <= c.N()
    ensures LockedByPhase(c, s.List(u))[p - 1] <= c.phases[p - 1].exchange * Held(c, s, u)[p - 1]
    ensures Worth(c, s, u, p) - LockedFor(c, s, u, p)
            == c.phases[p - 1].exchange * Held(c, s, u)[p - 1] - LockedByPhase(c, s.List(u))[p - 1]
  {
    PhaseCovered(c, s, u, p);
    PhaseAt(c, s, u, p);
    Commutes(Held(c, s, u)[p - 1], c.phases[p - 1].exchange);
    hide PhaseTotal, Core, Pristine;
  }

  lemma MaskAt(c: Config, s: State, u: AccountId, order: seq<nat>)
    ensures forall i :: 0 <= i < c.N() ==>
      Mask(c, s, u, order)[i] == if i + 1 in order then Worth(c, s, u, i + 1) - LockedFor(c, s, u, i + 1) else 0
  {
  }

  // ---------------------------------------------------------------- ways out that are closed

  ghost function MissingFor(c: Config, s: State, u: AccountId, p: nat): nat
    requires 1 <= p <= c.N()
  {
    Max(0, Worth(c, s, u, p) - LockedFor(c, s, u, p))
  }

  /** Free shares the account's IOUs need in any case, phase by phase. */
  ghost function Missing(c: Config, s: State, u: AccountId): seq<int>
  {
    seq(c.N(), i requires 0 <= i < c.N() => MissingFor(c, s, u, i + 1))
  }

  /** The free shares do not cover that. */
  ghost predicate Closed(c: Config, s: State, u: AccountId)
  {
    Bal(s.free, c.share, u) < SumInts(Missing(c, s, u), c.N())
  }

  /** One redemption of the account's own. */
  ghost predicate Redeems(c: Config, s: State, t: State, u: AccountId, p: nat, x: nat, burnt: bool)
  {
    && 1 <= p <= c.N() && s.left >= 1 && x <= Bal(s.free, c.At(p).iou, u)
    && CheckCanRedeem(c, s.left, Bal(s.free, c.share, u), s.List(u), p, x).Done? && RedeemedFor(c, s, t, u, p, x, burnt)
  }

  /** Of whatever phase and size, it does not help. */
  lemma StaysClosed(c: Config, s: State, t: State, u: AccountId, p: nat, x: nat, burnt: bool)
    requires c.AssetsDistinct() && u != c.collection && Redeems(c, s, t, u, p, x, burnt) && Closed(c, s, u)
    ensures Closed(c, t, u)
  {
    var take := RedeemTake(c, s, u, p, x);
    TakenIs(c, s, u, p, x);
    PieceLosesNothing(c, s, t, u, p, x, burnt);
    assert Worth(c, t, u, p) == Worth(c, s, u, p) - take.0 - take.1 by {
      PieceOfWorth(Bal(s.free, c.At(p).iou, u), x, c.At(p).exchange);
    }
    hide RedeemedFor, CheckCanRedeem, RedeemTake, PhaseTotal, LockedPart, Wealth, Surplus;
    forall i | 0 <= i < c.N()
      ensures Missing(c, t, u)[i] >= Missing(c, s, u)[i] - if i + 1 == p then take.0 else 0
    {
      assert Bal(t.free, c.At(i + 1).iou, u) == Bal(s.free, c.At(i + 1).iou, u) - if i + 1 == p then x else 0;
    }
    SumDrops(Missing(c, s, u), Missing(c, t, u), p, take.0, c.N());
  }

  lemma PieceOfWorth(held: nat, x: nat, e: nat)
    requires x <= held
    ensures (held - x) * e == held * e - x * e
  {
  }

  lemma {:induction false} SumDrops(xs: seq<int>, ys: seq<int>, p: nat, d: nat, k: nat)
    requires k <= |xs| == |ys| && p >= 1
    requires forall i :: 0 <= i < k ==> ys[i] >= xs[i] - if i + 1 == p then d else 0
    ensures SumInts(ys, k) >= SumInts(xs, k) - if p <= k then d else 0
  {
    if k > 0 { SumDrops(xs, ys, p, d, k - 1); }
  }

  /** So no sequence of redemptions gets such an account out. */
  lemma {:induction false} ClosedForGood(c: Config, trace: seq<State>, pieces: seq<(nat, nat, bool)>, u: AccountId)
    requires c.AssetsDistinct() && u != c.collection && |trace| == |pieces| + 1 && Closed(c, trace[0], u)
    requires forall i ::
      0 <= i < |pieces| ==> Redeems(c, trace[i], trace[i + 1], u, pieces[i].0, pieces[i].1, pieces[i].2)
    ensures Closed(c, trace[|pieces|], u)
    ensures exists p :: 1 <= p <= c.N() && Bal(trace[|pieces|].free, c.At(p).iou, u) > 0
  {
    hide Closed, Redeems;
    if |pieces| == 0 {
      StillHolds(c, trace[0], u);
    } else {
      var n := |pieces| - 1;
      assert trace[..n + 1][n] == trace[n];
      ClosedForGood(c, trace[..n + 1], pieces[..n], u);
      StaysClosed(c, trace[n], trace[n + 1], u, pieces[n].0, pieces[n].1, pieces[n].2);
      StillHolds(c, trace[n + 1], u);
    }
  }

  lemma StillHolds(c: Config, s: State, u: AccountId)
    requires Closed(c, s, u)
    ensures exists p :: 1 <= p <= c.N() && Bal(s.free, c.At(p).iou, u) > 0
  {
    if forall p :: 1 <= p <= c.N() ==> Bal(s.free, c.At(p).iou, u) == 0 {
      forall i | 0 <= i < c.N() ensures Missing(c, s, u)[i] == 0 { assert Bal(s.free, c.At(i + 1).iou, u) == 0; }
      SumZero(Missing(c, s, u), c.N());
    }
  }

  /** A pristine account is not closed. */
  lemma PristineIsOpen(c: Config, s: State, u: AccountId)
    requires c.WellFormed() && Core(c, s) && Pristine(c, s, u) && HeldIsIssued(c, s, u)
    ensures !Closed(c, s, u)
  {
    var all := Phases(c);
    assert InOrder(c, all);
    hide *;
    PristineCoversNeeds(c, s, u, all);
    PristineInTime(c, s, u);
    NeedsIsMask(c, s, u, all);
    NothingMissing(c, s, u);
    NotClosed(c, s, u);
  }

  ghost function Phases(c: Config): seq<nat> { seq(c.N(), i requires 0 <= i < c.N() => i + 1) }

  lemma NothingMissing(c: Config, s: State, u: AccountId)
    requires LockedInTime(c, s, u)
    ensures Mask(c, s, u, Phases(c)) == Missing(c, s, u)
  {
    var all := Phases(c);
    forall i | 0 <= i < c.N() ensures Mask(c, s, u, all)[i] == Missing(c, s, u)[i] {
      assert all[i] == i + 1;
      assert LockedFor(c, s, u, i + 1) <= LockedPart(c, i + 1, s.left, Worth(c, s, u, i + 1)) <= Worth(c, s, u, i + 1);
    }
  }

  lemma NotClosed(c: Config, s: State, u: AccountId)
    requires SumInts(Missing(c, s, u), c.N()) <= Bal(s.free, c.share, u)
    ensures !Closed(c, s, u)
  {
  }

  // ---------------------------------------------------------------- accounts that always get out in the end

  /** All IOUs and all packs of the account belong to phase `p`, and its shares are just what they are worth. */
  ghost predicate OnlyPhase(c: Config, s: State, u: AccountId, p: nat)
  {
    && 1 <= p <= c.N() && Surplus(c, s, u) == 0
    && forall q :: 1 <= q <= c.N() && q != p ==> Bal(s.free, c.At(q).iou, u) == 0 && LockedFor(c, s, u, q) == 0
  }

  lemma OnlyPhaseBalances(c: Config, s: State, u: AccountId, p: nat)
    requires PacksVest(c, s) && s.left >= 1 && OnlyPhase(c, s, u, p)
    ensures Bal(s.free, c.share, u) + LockedFor(c, s, u, p) == Worth(c, s, u, p)
  {
    var l, zero := s.List(u), seq(c.N(), i => 0);
    assert ListVests(l, c.share, u, c.N(), s.left);
    ListByPhase(c, l, u, s.left);
    SumZero(zero, c.N());
    WeighZero(c, zero, c.N());
    var held, locked := Bal(s.free, c.At(p).iou, u), LockedFor(c, s, u, p);
    forall i | 0 <= i < c.N()
      ensures LockedByPhase(c, l)[i] == if i + 1 == p then locked else 0
      ensures Held(c, s, u)[i] == if i + 1 == p then held else 0
    {
      assert i + 1 != p ==> Bal(s.free, c.At(i + 1).iou, u) == 0 && LockedFor(c, s, u, i + 1) == 0;
    }
    SumOne(zero, LockedByPhase(c, l), p, locked, c.N());
    WeighOne(c, zero, Held(c, s, u), p, held, c.N());
    Commutes(c.At(p).exchange, held);
  }

  /** All that is left of such an account's IOUs goes through at once, whatever was redeemed before, and
      takes both pockets with it. */
  lemma OnlyPhaseGoes(c: Config, s: State, u: AccountId, p: nat)
    requires c.WellFormed() && Core(c, s) && HeldIsIssued(c, s, u) && OnlyPhase(c, s, u, p)
    ensures PartsFit(c, s, u) && AllGo(c, s, u, [p], Bal(s.free, c.share, u))
    ensures RedeemTake(c, s, u, p, Bal(s.free, c.At(p).iou, u)) == (Bal(s.free, c.share, u), LockedFor(c, s, u, p))
  {
    var free, locked, worth := Bal(s.free, c.share, u), LockedFor(c, s, u, p), Worth(c, s, u, p);
    assert PacksVest(c, s) && s.left >= 1 && 1 <= p <= c.N();
    hide *;
    PartsDoFit(c, s, u);
    OnlyPhaseBalances(c, s, u, p);
    TakeIsPockets(c, s, u, p);
    PartFits(c, s, u, p);
    BothPockets(free, locked, LockedPart(c, p, s.left, worth));
    GoesWhole(c, s, u, p, free);
    GoesAlone(c, s, u, p, free);
  }

  lemma PartFits(c: Config, s: State, u: AccountId, p: nat)
    requires PartsFit(c, s, u) && 1 <= p <= c.N()
    ensures LockedPart(c, p, s.left, Worth(c, s, u, p)) <= Worth(c, s, u, p)
  {
  }

  /** Both pockets emptied, nothing is left to be split. */
  lemma GoesWhole(c: Config, s: State, u: AccountId, p: nat, free: nat)
    requires PartsFit(c, s, u) && 1 <= p <= c.N()
    requires var locked, worth := LockedFor(c, s, u, p), Worth(c, s, u, p);
             var part := LockedPart(c, p, s.left, worth);
             Passes(free, locked, worth, part) && Pockets(free, locked, worth, part) == (free, locked)
    ensures Goes(c, s, u, p, free)
  {
    hide Passes, Pockets, LockedPart, LockedFor, Worth;
  }

  lemma BothPockets(free: nat, locked: nat, part: nat)
    requires part <= free + locked
    ensures Passes(free, locked, free + locked, part) && Pockets(free, locked, free + locked, part) == (free, locked)
  {
  }

  lemma GoesAlone(c: Config, s: State, u: AccountId, p: nat, free: nat)
    requires 1 <= p <= c.N() && PartsFit(c, s, u) && Goes(c, s, u, p, free)
    ensures AllGo(c, s, u, [p], free)
  {
    hide Goes, PartsFit;
    assert [p][1..] == [];
  }

  lemma OnlyPhaseStays(c: Config, s: State, t: State, u: AccountId, p: nat, x: nat, burnt: bool)
    requires c.AssetsDistinct() && u != c.collection && OnlyPhase(c, s, u, p) && Redeems(c, s, t, u, p, x, burnt)
    ensures OnlyPhase(c, t, u, p)
  {
    PieceLosesNothing(c, s, t, u, p, x, burnt);
    hide RedeemedFor, CheckCanRedeem, RedeemTake, PhaseTotal, Surplus, Wealth;
  }

  /** In the last phase everybody whose shares cover their IOUs can hand in any piece of them. */
  lemma LastPhaseFrees(c: Config, s: State, u: AccountId, p: nat, x: nat)
    requires c.WellFormed() && Core(c, s) && s.phase == c.N() && HeldIsIssued(c, s, u) && Surplus(c, s, u) >= 0
    requires 1 <= p <= c.N() && x <= Bal(s.free, c.At(p).iou, u)
    ensures CheckCanRedeem(c, s.left, Bal(s.free, c.share, u), s.List(u), p, x).Done? && !LeavesUneven(c, s, u, p, x)
  {
    LastPhaseIsPaidOut(c, s);
    CheckIs(c, s, u, p, x);
    forall i | 0 <= i < c.N() ensures 0 <= Held(c, s, u)[i] { }
    WeighAtLeastOne(c, Held(c, s, u), p, c.N());
    assert Held(c, s, u)[p - 1] == Bal(s.free, c.At(p).iou, u);
    WorthMono(c.At(p).exchange, x, Bal(s.free, c.At(p).iou, u));
  }
}
