/** rio-price with the witness book of rio-oracle: reports come in during a block, and at its end
    the price becomes their median and the stale ones are dropped. */
module PricePallet {
  import opened Primitives
  import opened Medians

  datatype Report = Report(reporter: AccountId, price: nat)

  /** What happens in a block: a report, or the end of the block. */
  datatype Event = Reported(who: AccountId, price: nat) | Finalized

  function Prices(reports: seq<Report>): seq<nat> { seq(|reports|, i requires 0 <= i < |reports| => reports[i].price) }

  ghost predicate ReportersDistinct(reports: seq<Report>)
  {
    forall i, j :: 0 <= i < j < |reports| ==> reports[i].reporter != reports[j].reporter
  }

  predicate HasReport(reports: seq<Report>, who: AccountId)
  {
    exists i :: 0 <= i < |reports| && reports[i].reporter == who
  }

  /** The reports with `who`'s price replaced where it stands. */
  function Replaced(reports: seq<Report>, who: AccountId, price: nat): (r: seq<Report>)
    ensures |r| == |reports|
    ensures forall i :: 0 <= i < |r| ==> r[i] == if reports[i].reporter == who then Report(who, price) else reports[i]
  {
    seq(|reports|, i requires 0 <= i < |reports| =>
      if reports[i].reporter == who then Report(who, price) else reports[i])
  }

  /** The reports that pass a test, in order. */
  function Kept(reports: seq<Report>, since: int, heard: map<AccountId, nat>): seq<Report>
  {
    if reports == [] then []
    else
      var last := reports[|reports| - 1];
      Kept(reports[..|reports| - 1], since, heard) + if Get(heard, last.reporter) >= since then [last] else []
  }

  lemma {:induction false} KeptHolds(reports: seq<Report>, since: int, heard: map<AccountId, nat>)
    requires ReportersDistinct(reports)
    ensures ReportersDistinct(Kept(reports, since, heard))
    ensures forall r :: r in Kept(reports, since, heard) <==> r in reports && Get(heard, r.reporter) >= since
  {
    if reports != [] {
      var n := |reports| - 1;
      KeptHolds(reports[..n], since, heard);
      assert reports == reports[..n] + [reports[n]];
      var front := Kept(reports[..n], since, heard);
      forall i | 0 <= i < |front| ensures front[i].reporter != reports[n].reporter {
        assert front[i] in reports[..n];
      }
    }
  }

  /** What the module stores, with each oracle's last report as it was made. */
  datatype Board = Board(
    current: nat, reports: seq<Report>, heard: map<AccountId, nat>, height: nat, latest: map<AccountId, nat>)

  /** One event.  A report replaces the one its reporter had standing; the end of a block makes
      the median the price and keeps the recent reports, unless there is no median, and no block. */
  ghost predicate Step(interval: nat, e: Event, s: Board, t: Board)
  {
    match e
    case Reported(who, price) =>
      && t.current == s.current && t.height == s.height
      && t.reports == (if HasReport(s.reports, who) then Replaced(s.reports, who, price)
                       else s.reports + [Report(who, price)])
      && t.heard == With(s.heard, who, s.height) && t.latest == s.latest[who := price]
    case Finalized =>
      if s.reports != [] && IsMedian(Prices(s.reports), None) then t == s
      else
        && t.height == s.height + 1 && t.heard == s.heard && t.latest == s.latest
        && (if s.reports == [] then t.current == s.current else IsMedian(Prices(s.reports), Some(t.current)))
        && ReportersDistinct(t.reports)
        && forall x :: x in t.reports <==> x in s.reports && Get(s.heard, x.reporter) + interval >= s.height
  }

  /** What enters the median at the end of a block: one report of each oracle, its last one, made
      at most the interval and one block ago.  As long as a strict majority of them lies
      between two bounds, so does the price. */
  ghost predicate SoundMedian(interval: nat, s: Board, t: Board)
  {
    && ReportersDistinct(s.reports)
    && (forall r :: r in s.reports ==> r.reporter in s.latest && r.price == s.latest[r.reporter])
    && (forall r :: r in s.reports ==> Get(s.heard, r.reporter) <= s.height <= Get(s.heard, r.reporter) + interval + 1)
    && (t.height > s.height ==>
          forall lo: nat, hi: nat :: 2 * Within(Prices(s.reports), lo, hi) > |s.reports| ==> lo <= t.current <= hi)
  }

  class Price {
    const interval: nat                        // ReportInteval, 10 blocks in the runtime

    var current: nat
    var reports: seq<Report>
    var heard: map<AccountId, nat>           // block of each oracle's last report
    var height: nat

    // Each oracle's last report, as it was made.
    ghost var latest: map<AccountId, nat>

    /** Reporters are distinct, each stored price is its reporter's latest, and none is older
        than the interval and one block. */
    ghost predicate Valid()
      reads this
    {
      && ReportersDistinct(reports)
      && (forall r :: r in reports ==> r.reporter in latest && r.price == latest[r.reporter])
      && (forall r :: r in reports ==> Get(heard, r.reporter) <= height <= Get(heard, r.reporter) + interval + 1)
    }

    constructor (interval: nat, height: nat)
      ensures Valid() && this.interval == interval && this.height == height && reports == []
    {
      this.interval, this.height := interval, height;
      current, reports, heard, latest := 0, [], map[], map[];
    }

    predicate IsValid(who: AccountId)
      reads this`heard, this`height
    {
      Get(heard, who) + interval >= height
    }

    ghost function View(): Board
      reads this
    {
      Board(current, reports, heard, height, latest)
    }

    /** `report`. */
    method AddPrice(who: AccountId, price: nat)
      requires Valid()
      modifies this`reports, this`heard, this`latest
      ensures Valid()
      ensures reports == if HasReport(old(reports), who) then Replaced(old(reports), who, price)
                         else old(reports) + [Report(who, price)]
      ensures heard == With(old(heard), who, height) && latest == old(latest)[who := price]
    {
      var updated, found := Update(who, price);
      AddedLaw(reports, who, price);
      reports := if found then updated else updated + [Report(who, price)];
      heard := With(heard, who, height);
      latest := latest[who := price];
    }

    method Update(who: AccountId, price: nat) returns (updated: seq<Report>, found: bool)
      ensures updated == Replaced(reports, who, price) && (found <==> HasReport(reports, who))
      ensures !found ==> updated == reports
    {
      var i := 0;
      updated, found := [], false;
      while i < |reports|
        invariant i <= |reports| && updated == Replaced(reports, who, price)[..i]
        invariant found <==> exists k :: 0 <= k < i && reports[k].reporter == who
      {
        if reports[i].reporter == who {
          updated := updated + [Report(who, price)];
          found := true;
        } else {
          updated := updated + [reports[i]];
        }
        i := i + 1;
      }
      assert updated == Replaced(reports, who, price);
    }

    lemma AddedLaw(list: seq<Report>, who: AccountId, price: nat)
      requires ReportersDistinct(list)
      ensures var added := if HasReport(list, who) then Replaced(list, who, price) else list + [Report(who, price)];
              ReportersDistinct(added) && forall r :: r in added ==>
                  if r.reporter == who then r == Report(who, price) else r in list
    {
    }

    /** The median becomes the price; the reports that stay are those of valid oracles. */
    method OnFinalize() returns (r: Outcome, changed: bool)
      requires Valid()
      modifies this`current, this`reports
      ensures !r.Failed?
      ensures old(reports) == [] ==> r.Done? && current == old(current)
      ensures old(reports) != [] ==> IsMedian(Prices(old(reports)), if r.Done? then Some(current) else None)
      ensures r.Done? ==> changed == (current != old(current))
      ensures r.Done? ==> ReportersDistinct(reports)
      ensures r.Done? ==> forall x :: x in reports <==> x in old(reports) && Get(heard, x.reporter) + interval >= height
    {
      KeptHolds(reports, height - interval, heard);
      hide IsMedian, ReportersDistinct;
      var before := current;
      changed := false;
      if |reports| > 0 {
        var median := MedianOfReports();
        if median.None? { return Aborted, false; }
        if before != median.value {
          current := median.value;
          changed := true;
        }
      }
      reports := DropStale();
      return Done, changed;
    }

    method MedianOfReports() returns (r: Option<nat>)
      requires reports != []
      ensures IsMedian(Prices(reports), r)
    {
      hide IsMedian;
      var numbers := new nat[|reports|](i requires 0 <= i < |reports| reads this => reports[i].price);
      assert numbers[..] == Prices(reports);
      r := Median(numbers);
    }

    method DropStale() returns (kept: seq<Report>)
      ensures kept == Kept(reports, height - interval, heard)
    {
      var i := 0;
      kept := [];
      assert reports[..0] == [];
      while i < |reports|
        invariant i <= |reports| && kept == Kept(reports[..i], height - interval, heard)
      {
        assert reports[..i + 1][..i] == reports[..i];
        if IsValid(reports[i].reporter) { kept := kept + [reports[i]]; }
        i := i + 1;
      }
      assert reports[..i] == reports;
    }

    /** The end of a block, and the next one.  A block whose median overflows cannot be built. */
    method EndBlock() returns (r: Outcome, changed: bool)
      requires Valid()
      modifies this`current, this`reports, this`height
      ensures Valid() && !r.Failed?
      ensures old(reports) == [] ==> r.Done? && current == old(current)
      // put in order, whichever way: an odd number of prices has its middle one as the price, an even number
      // half the sum of the two in the middle, unless that sum is too large
      ensures forall t: seq<nat> ::
        IsSorted(t) && multiset(t) == multiset(Prices(old(reports))) && |t| % 2 == 1 ==>
          r.Done? && current == t[|t| / 2]
      ensures forall t: seq<nat> ::
        IsSorted(t) && multiset(t) == multiset(Prices(old(reports))) && |t| % 2 == 0 && |t| > 0 ==>
          var sum := t[|t| / 2 - 1] + t[|t| / 2];
          if sum <= MAX_BALANCE then r.Done? && current == sum / 2 else r.Aborted?
      ensures Step(interval, Finalized, old(View()), View())
      ensures r.Aborted? ==> current == old(current) && reports == old(reports) && height == old(height)
      ensures r.Done? ==> height == old(height) + 1
      // as long as a strict majority of the reports lies between two bounds, so does the price
      ensures forall lo: nat, hi: nat ::
        r.Done? && 2 * Within(Prices(old(reports)), lo, hi) > |old(reports)| ==> lo <= current <= hi
    {
      var current0, reports0 := current, reports;
      hide IsMedian, ReportersDistinct, Within;
      r, changed := OnFinalize();
      MedianReached(Prices(reports0), if r.Done? then Some(current) else None);
      if r.Aborted? {
        current, reports := current0, reports0;
        return;
      }
      height := height + 1;
    }

    /** What a median means: for any order of the prices, and for most of them. */
    lemma MedianReached(s: seq<nat>, r: Option<nat>)
      requires s == [] || IsMedian(s, r)
      ensures s != [] ==> (r.Some? <==> !IsMedian(s, None))
      ensures forall t: seq<nat> :: IsSorted(t) && multiset(t) == multiset(s) ==>
        if s == [] then t == [] else t != [] && IsMiddle(t, r)
      ensures r.Some? ==> forall lo: nat, hi: nat :: 2 * Within(s, lo, hi) > |s| ==> lo <= r.value <= hi
    {
      forall t: seq<nat> | IsSorted(t) && multiset(t) == multiset(s) ensures |t| == |s| { SameSize(t, s); }
      if s == [] { return; }
      MedianIs(s, r);
      MedianIs(s, None);
      hide MedianOf;
      forall lo: nat, hi: nat | r.Some? && 2 * Within(s, lo, hi) > |s| ensures lo <= r.value <= hi {
        MajorityHoldsMedian(s, lo, hi);
      }
    }

    method Handle(e: Event)
      requires Valid()
      modifies this
      ensures Valid() && Step(interval, e, old(View()), View())
      ensures e.Finalized? ==> SoundMedian(interval, old(View()), View())
    {
      hide MedianOf, Sorted;
      match e
      case Reported(who, price) => AddPrice(who, price);
      case Finalized => var r, changed := EndBlock();
    }

    /** Any run of reports and block ends, state by state: each follows from the one before, and
        no price ever enters a median more than the interval and one block after it was
        reported, nor does a minority of the reports ever move the price out of the others' range. */
    method Run(events: seq<Event>) returns (ghost trace: seq<Board>)
      requires Valid()
      modifies this
      ensures Valid() && |trace| == |events| + 1 && trace[0] == old(View()) && trace[|events|] == View()
      ensures forall k :: 0 <= k < |events| ==> Step(interval, events[k], trace[k], trace[k + 1])
      ensures forall k :: 0 <= k < |events| && events[k].Finalized? ==> SoundMedian(interval, trace[k], trace[k + 1])
    {
      trace := [View()];
      hide Valid, Step, SoundMedian;
      for k := 0 to |events|
        invariant Valid() && |trace| == k + 1 && trace[0] == old(View()) && trace[k] == View()
        invariant forall i :: 0 <= i < k ==> Step(interval, events[i], trace[i], trace[i + 1])
        invariant forall i :: 0 <= i < k && events[i].Finalized? ==> SoundMedian(interval, trace[i], trace[i + 1])
      {
        Handle(events[k]);
        trace := trace + [View()];
      }
    }
  }
}
