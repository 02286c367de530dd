/** Lists of vesting packs, as one account's entry in the unreleased list. */
module PackLists {
  import opened Primitives
  import opened VestingPacks

  predicate Matches(p: Pack, asset: AssetId, phase: nat) { p.asset == asset && p.phase == phase }

  /** Everything a list still has to pay out. */
  ghost function ListTotal(l: seq<Pack>): nat
  {
    if l == [] then 0 else ListTotal(l[..|l| - 1]) + l[|l| - 1].Total()
  }

  /** The part that belongs to one phase. */
  function PhaseTotal(l: seq<Pack>, asset: AssetId, phase: nat): nat
  {
    if l == [] then 0
    else PhaseTotal(l[..|l| - 1], asset, phase) + if Matches(l[|l| - 1], asset, phase) then l[|l| - 1].Total() else 0
  }

  /** The same part, selected by owner instead of asset. */
  function OwnedTotal(l: seq<Pack>, owner: AccountId, phase: nat): nat
  {
    if l == [] then 0
    else
      var last := l[|l| - 1];
      OwnedTotal(l[..|l| - 1], owner, phase) + if last.phase == phase && last.owner == owner then last.Total() else 0
  }

  /** The packs of every other phase, in order. */
  function Others(l: seq<Pack>, asset: AssetId, phase: nat): seq<Pack>
  {
    if l == [] then []
    else Others(l[..|l| - 1], asset, phase) + if Matches(l[|l| - 1], asset, phase) then [] else [l[|l| - 1]]
  }

  /** What one payout round leaves, and what it pays. */
  ghost function Released(l: seq<Pack>): seq<Pack>
  {
    if l == [] then []
    else Released(l[..|l| - 1]) + if l[|l| - 1].After().empty then [] else [l[|l| - 1].After()]
  }

  ghost function PaidOut(l: seq<Pack>): nat
  {
    if l == [] then 0 else PaidOut(l[..|l| - 1]) + l[|l| - 1].Paid()
  }

  ghost function PhasePaid(l: seq<Pack>, asset: AssetId, phase: nat): nat
  {
    if l == [] then 0
    else PhasePaid(l[..|l| - 1], asset, phase) + if Matches(l[|l| - 1], asset, phase) then l[|l| - 1].Paid() else 0
  }

  /** A stored pack while `left` phases remain out of `count`: it has a payout for every
      phase still to come. */
  ghost predicate Vests(p: Pack, asset: AssetId, owner: AccountId, count: nat, left: nat)
  {
    && p.Tidy() && !p.empty && p.asset == asset && p.owner == owner
    && 1 <= p.phase <= count - left + 1
    && p.TermsLeft() == left - 1 && p.major.termsTotal == count - p.phase + 1
  }

  ghost predicate OnePerPhase(l: seq<Pack>)
  {
    forall i, j :: 0 <= i < j < |l| ==> l[i].phase != l[j].phase
  }

  ghost predicate ListVests(l: seq<Pack>, asset: AssetId, owner: AccountId, count: nat, left: nat)
  {
    OnePerPhase(l) && forall i :: 0 <= i < |l| ==> Vests(l[i], asset, owner, count, left)
  }

  lemma ListVestsPrefix(l: seq<Pack>, asset: AssetId, owner: AccountId, count: nat, left: nat)
    requires l != [] && ListVests(l, asset, owner, count, left)
    ensures ListVests(l[..|l| - 1], asset, owner, count, left)
  {
  }

  lemma {:induction false} TotalsAgree(l: seq<Pack>, asset: AssetId, owner: AccountId, phase: nat, count: nat,
                                       left: nat)
    requires ListVests(l, asset, owner, count, left)
    ensures OwnedTotal(l, owner, phase) == PhaseTotal(l, asset, phase)
  {
    if l != [] {
      ListVestsPrefix(l, asset, owner, count, left);
      TotalsAgree(l[..|l| - 1], asset, owner, phase, count, left);
    }
  }

  /** Taking one phase out of a list leaves the other phases as they were. */
  lemma {:induction false} OthersTotals(l: seq<Pack>, asset: AssetId, phase: nat)
    ensures ListTotal(Others(l, asset, phase)) + PhaseTotal(l, asset, phase) == ListTotal(l)
    ensures forall q ::
      PhaseTotal(Others(l, asset, phase), asset, q) == if q == phase then 0 else PhaseTotal(l, asset, q)
  {
    if l != [] {
      OthersTotals(l[..|l| - 1], asset, phase);
      var rest, last := Others(l[..|l| - 1], asset, phase), l[|l| - 1];
      AppendTotals(rest, last);
      assert Others(l, asset, phase) == if Matches(last, asset, phase) then rest else rest + [last];
    }
  }

  lemma {:induction false} OthersVest(l: seq<Pack>, asset: AssetId, owner: AccountId, phase: nat, count: nat, left: nat)
    requires ListVests(l, asset, owner, count, left)
    ensures ListVests(Others(l, asset, phase), asset, owner, count, left)
    ensures forall i :: 0 <= i < |Others(l, asset, phase)| ==> Others(l, asset, phase)[i].phase != phase
    ensures forall q :: q in Others(l, asset, phase) ==> q in l
  {
    if l != [] {
      ListVestsPrefix(l, asset, owner, count, left);
      OthersVest(l[..|l| - 1], asset, owner, phase, count, left);
      var rest := Others(l[..|l| - 1], asset, phase);
      assert forall i :: 0 <= i < |rest| ==> rest[i] in l[..|l| - 1];
    }
  }

  lemma AppendTotals(l: seq<Pack>, p: Pack)
    ensures ListTotal(l + [p]) == ListTotal(l) + p.Total()
    ensures forall a, q :: PhaseTotal(l + [p], a, q) == PhaseTotal(l, a, q) + if Matches(p, a, q) then p.Total() else 0
    ensures forall a, q :: Others(l + [p], a, q) == Others(l, a, q) + if Matches(p, a, q) then [] else [p]
  {
    var all := l + [p];
    assert all[..|all| - 1] == l;
  }

  /** One payout round: nothing is lost, in the list or in any phase. */
  lemma {:induction false} ReleasedTotals(l: seq<Pack>, asset: AssetId, owner: AccountId, count: nat, left: nat)
    requires ListVests(l, asset, owner, count, left)
    ensures ListTotal(Released(l)) + PaidOut(l) == ListTotal(l)
    ensures forall q :: PhaseTotal(Released(l), asset, q) + PhasePaid(l, asset, q) == PhaseTotal(l, asset, q)
  {
    if l != [] {
      var front, last := l[..|l| - 1], l[|l| - 1];
      ListVestsPrefix(l, asset, owner, count, left);
      ReleasedTotals(front, asset, owner, count, left);
      last.ReleaseTidy();
      AppendTotals(Released(front), last.After());
      assert last.After().Total() + last.Paid() == last.Total();
      assert Released(l) == if last.After().empty then Released(front) else Released(front) + [last.After()];
    }
  }

  /** In a payout round every phase pays at least its average. */
  lemma {:induction false} PaysAverage(l: seq<Pack>, asset: AssetId, owner: AccountId, count: nat, left: nat, q: nat)
    requires ListVests(l, asset, owner, count, left)
    ensures l != [] ==> left >= 2
    ensures PhaseTotal(l, asset, q) <= PhasePaid(l, asset, q) * (left - 1)
  {
    if l != [] {
      var front, last := l[..|l| - 1], l[|l| - 1];
      ListVestsPrefix(l, asset, owner, count, left);
      PaysAverage(front, asset, owner, count, left, q);
      assert Vests(last, asset, owner, count, left);
      last.ReleaseTidy();
      if last.phase == q {
        assert (PhasePaid(front, asset, q) + last.Paid()) * (left - 1)
            == PhasePaid(front, asset, q) * (left - 1) + last.Paid() * (left - 1);
      }
    }
  }

  /** After a payout round the list is in step with the next phase; with one phase to go it is empty. */
  lemma {:induction false} ReleasedVests(l: seq<Pack>, asset: AssetId, owner: AccountId, count: nat, left: nat)
    requires ListVests(l, asset, owner, count, left) && left >= 1
    ensures ListVests(Released(l), asset, owner, count, left - 1)
    ensures forall q :: q in Released(l) ==> exists p :: p in l && p.phase == q.phase
    ensures left <= 2 ==> Released(l) == []
  {
    if l != [] {
      var front, last := l[..|l| - 1], l[|l| - 1];
      ListVestsPrefix(l, asset, owner, count, left);
      ReleasedVests(front, asset, owner, count, left);
      assert Vests(last, asset, owner, count, left);
      last.ReleaseTidy();
      var rest := Released(front);
      forall q | q in Released(l) ensures exists p :: p in l && p.phase == q.phase {
        if q in rest {
          var p :| p in front && p.phase == q.phase;
          assert p in l;
        } else {
          assert last in l && last.phase == q.phase;
        }
      }
      forall i | 0 <= i < |rest| ensures rest[i].phase != last.phase {
        assert rest[i] in rest;
        var p :| p in front && p.phase == rest[i].phase;
      }
    }
  }

  /** The (terms total, terms left) the aggregation loop picks up. */
  function TermsOf(l: seq<Pack>, asset: AssetId, phase: nat): (nat, nat)
  {
    if l == [] then (0, 0)
    else
      var t := TermsOf(l[..|l| - 1], asset, phase);
      var last := l[|l| - 1];
      if Matches(last, asset, phase) && t.0 != last.major.termsTotal
      then (last.major.termsTotal, last.TermsLeft()) else t
  }

  /** Packs that agree on their terms: those are the terms picked up. */
  lemma {:induction false} TermsAgree(l: seq<Pack>, asset: AssetId, phase: nat, total: nat, left: nat)
    requires total > 0
    requires forall i ::
      0 <= i < |l| && Matches(l[i], asset, phase) ==> l[i].major.termsTotal == total && l[i].TermsLeft() == left
    ensures TermsOf(l, asset, phase) == (total, left) || TermsOf(l, asset, phase) == (0, 0)
    ensures (exists i :: 0 <= i < |l| && Matches(l[i], asset, phase)) ==> TermsOf(l, asset, phase) == (total, left)
  {
    if l != [] {
      TermsAgree(l[..|l| - 1], asset, phase, total, left);
      var front := l[..|l| - 1];
      if !Matches(l[|l| - 1], asset, phase) && exists i :: 0 <= i < |l| && Matches(l[i], asset, phase) {
        var i :| 0 <= i < |l| && Matches(l[i], asset, phase);
        assert Matches(front[i], asset, phase);
      }
    }
  }

  lemma {:induction false} MatchExists(l: seq<Pack>, asset: AssetId, phase: nat)
    ensures PhaseTotal(l, asset, phase) > 0 ==> exists i :: 0 <= i < |l| && Matches(l[i], asset, phase)
  {
    if l != [] {
      var n := |l| - 1;
      MatchExists(l[..n], asset, phase);
      if !Matches(l[n], asset, phase) && PhaseTotal(l, asset, phase) > 0 {
        var i :| 0 <= i < n && Matches(l[..n][i], asset, phase);
        assert Matches(l[i], asset, phase);
      }
    }
  }

  lemma {:induction false} PaidOutPrefix(l: seq<Pack>, i: nat)
    requires i <= |l|
    ensures PaidOut(l[..i]) <= PaidOut(l)
    ensures i < |l| ==> PaidOut(l[..i + 1]) == PaidOut(l[..i]) + l[i].Paid() <= PaidOut(l)
    ensures i < |l| ==> Released(l[..i + 1]) == Released(l[..i]) + if l[i].After().empty then [] else [l[i].After()]
    decreases |l| - i
  {
    if i < |l| {
      PaidOutPrefix(l, i + 1);
      assert l[..i + 1][..i] == l[..i];
    } else {
      assert l[..i] == l;
    }
  }

  // ---------------------------------------------------------------- one pack per phase

  /** A phase's locked shares in one new pack that keeps the terms of the old ones. */
  function Repacked(owner: AccountId, asset: AssetId, phase: nat, balance: nat, terms: (nat, nat)): Option<Pack>
  {
    if terms.1 == 0 then None
    else
      var p := CreateSharePack(owner, asset, phase, balance, terms.1);
      if p.None? then None else Some(p.value.(major := p.value.major.(termsTotal := terms.0)))
  }

  lemma RepackedVests(owner: AccountId, asset: AssetId, phase: nat, balance: nat, count: nat, left: nat)
    requires left >= 2 && 1 <= phase <= count - left + 1
    ensures var r := Repacked(owner, asset, phase, balance, (count - phase + 1, left - 1));
            && (r.Some? ==>
                  Vests(r.value, asset, owner, count, left) && r.value.Total() == balance && r.value.phase == phase)
            && (SplitFits(balance, left - 1) ==> (r.Some? <==> SplitsEvenly(balance, left - 1)))
            && (r.Some? ==> SplitFits(balance, left - 1))
  {
    if SplitFits(balance, left - 1) {
      SplitExact(owner, asset, phase, balance, left - 1);
    }
  }

  /** Replacing a phase's packs by one new pack keeps the list in shape. */
  lemma ReplacePhase(l: seq<Pack>, p: Pack, asset: AssetId, owner: AccountId, count: nat, left: nat)
    requires ListVests(l, asset, owner, count, left) && Vests(p, asset, owner, count, left)
    ensures var out := Others(l, asset, p.phase) + [p];
            && ListVests(out, asset, owner, count, left)
            && ListTotal(out) == ListTotal(l) - PhaseTotal(l, asset, p.phase) + p.Total()
            && PhaseTotal(out, asset, p.phase) == p.Total()
            && forall q :: q != p.phase ==> PhaseTotal(out, asset, q) == PhaseTotal(l, asset, q)
  {
    var rest := Others(l, asset, p.phase);
    OthersVest(l, asset, owner, p.phase, count, left);
    OthersTotals(l, asset, p.phase);
    AppendTotals(rest, p);
  }

  /** Dropping a phase altogether keeps the list in shape, too. */
  lemma DropPhase(l: seq<Pack>, phase: nat, asset: AssetId, owner: AccountId, count: nat, left: nat)
    requires ListVests(l, asset, owner, count, left)
    ensures var out := Others(l, asset, phase);
            && ListVests(out, asset, owner, count, left)
            && ListTotal(out) == ListTotal(l) - PhaseTotal(l, asset, phase)
            && forall q :: PhaseTotal(out, asset, q) == if q == phase then 0 else PhaseTotal(l, asset, q)
  {
    OthersVest(l, asset, owner, phase, count, left);
    OthersTotals(l, asset, phase);
  }

  /** The terms the aggregation picks up from a list in shape. */
  lemma TermsInShape(l: seq<Pack>, asset: AssetId, owner: AccountId, phase: nat, count: nat, left: nat)
    requires ListVests(l, asset, owner, count, left) && PhaseTotal(l, asset, phase) > 0
    ensures left >= 2 && 1 <= phase <= count - left + 1
    ensures TermsOf(l, asset, phase) == (count - phase + 1, left - 1)
  {
    MatchExists(l, asset, phase);
    var i :| 0 <= i < |l| && Matches(l[i], asset, phase);
    assert Vests(l[i], asset, owner, count, left);
    forall i | 0 <= i < |l| && Matches(l[i], asset, phase)
      ensures l[i].major.termsTotal == count - phase + 1 && l[i].TermsLeft() == left - 1
    {
      assert Vests(l[i], asset, owner, count, left);
    }
    TermsAgree(l, asset, phase, count - phase + 1, left - 1);
  }

  /** The list after a fresh pack was pushed and aggregated, `None` where the split underflows. */
  function Merged(l: seq<Pack>, p: Pack): Option<seq<Pack>>
  {
    var all := l + [p];
    Rebuilt(Others(all, p.asset, p.phase),
            Repacked(p.owner, p.asset, p.phase, PhaseTotal(all, p.asset, p.phase), TermsOf(all, p.asset, p.phase)))
  }

  /** The owner's list after a pack was registered. */
  function Registered(m: map<AccountId, seq<Pack>>, p: Pack): Option<seq<Pack>>
  {
    if p.owner in m then Merged(m[p.owner], p) else Some([p])
  }

  function Rebuilt(others: seq<Pack>, p: Option<Pack>): Option<seq<Pack>>
  {
    if p.None? then None else Some(others + [p.value])
  }

  lemma TermsOfVests(l: seq<Pack>, asset: AssetId, owner: AccountId, phase: nat, count: nat, left: nat)
    requires ListVests(l, asset, owner, count, left) && 1 <= phase <= count && left >= 1
    ensures TermsOf(l, asset, phase) == (count - phase + 1, left - 1) || TermsOf(l, asset, phase) == (0, 0)
  {
    forall i | 0 <= i < |l| && Matches(l[i], asset, phase)
      ensures l[i].major.termsTotal == count - phase + 1 && l[i].TermsLeft() == left - 1
    {
      assert Vests(l[i], asset, owner, count, left);
    }
    TermsAgree(l, asset, phase, count - phase + 1, left - 1);
  }

  lemma PushedTerms(l: seq<Pack>, p: Pack, asset: AssetId, owner: AccountId, count: nat, left: nat)
    requires ListVests(l, asset, owner, count, left) && Vests(p, asset, owner, count, left)
    ensures TermsOf(l + [p], asset, p.phase) == (count - p.phase + 1, left - 1)
  {
    var all := l + [p];
    assert all[..|all| - 1] == l && all[|all| - 1] == p;
    TermsOfVests(l, asset, owner, p.phase, count, left);
  }

  lemma MergedVests(l: seq<Pack>, p: Pack, asset: AssetId, owner: AccountId, count: nat, left: nat, terms: (nat, nat),
                    total: nat)
    requires ListVests(l, asset, owner, count, left) && Vests(p, asset, owner, count, left)
    requires terms == (count - p.phase + 1, left - 1) && total == PhaseTotal(l, asset, p.phase) + p.Total()
    ensures left >= 2
    ensures Merged(l, p).Some? <==> Repacked(owner, asset, p.phase, total, terms).Some?
    ensures Merged(l, p).Some? ==>
              var out := Merged(l, p).value;
              && ListVests(out, asset, owner, count, left)
              && ListTotal(out) == ListTotal(l) + p.Total()
              && PhaseTotal(out, asset, p.phase) == total
              && forall q :: q != p.phase ==> PhaseTotal(out, asset, q) == PhaseTotal(l, asset, q)
  {
    AppendTotals(l, p);
    PushedTerms(l, p, asset, owner, count, left);
    assert p.owner == owner && p.asset == asset;
    assert Others(l + [p], asset, p.phase) == Others(l, asset, p.phase);
    assert PhaseTotal(l + [p], asset, p.phase) == total && TermsOf(l + [p], asset, p.phase) == terms;
    var r := Repacked(owner, asset, p.phase, total, terms);
    assert Merged(l, p) == Rebuilt(Others(l, asset, p.phase), r);
    RepackedVests(owner, asset, p.phase, total, count, left);
    if r.Some? {
      ReplacePhase(l, r.value, asset, owner, count, left);
    }
  }
}
