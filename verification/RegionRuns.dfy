/** A region over a whole scope execution: what it counts, what it covers, what is reported past it. */
module RegionRuns {
  import opened Types
  import opened Counts
  import opened Governance
  import opened Executions

  /** Whether `e` runs under `region` and no call-site option covers it, so that the region is asked. */
  predicate Asks(scope: string, r: Run, e: Event, region: nat)
    requires r.Admits(e)
  {
    e.region == Some(region) && !r.OutcomeOf(scope, e).ByOption?
  }

  /** How many events of a run ask the region. */
  function Asked(scope: string, r: Run, es: seq<Event>, region: nat): nat
    requires AllAdmitted(r, es)
  {
    if es == [] then 0
    else
      var init, e := es[..|es| - 1], es[|es| - 1];
      assert e in es;
      Asked(scope, r, init, region) + if Asks(scope, Execute(scope, r, init), e, region) then 1 else 0
  }

  /** Over any run, whatever the operations and whatever the other tiers do, a region counts exactly its own
      events that no option covered. */
  lemma {:induction false} RegionCountsItsEvents(scope: string, r: Run, es: seq<Event>, region: nat)
    requires IsFresh(r) && AllAdmitted(r, es) && region < |r.regions|
    ensures Execute(scope, r, es).regions[region].calls == Asked(scope, r, es, region)
  {
    if es == [] {
      assert r.regions[region] in r.regions;
    } else {
      assert es[|es| - 1] in es;
      RegionCountsItsEvents(scope, r, es[..|es| - 1], region);
    }
  }

  /** The event that asks the region as the `m`-th is covered by it exactly up to its maximum. */
  lemma RegionCoversUpToMaximum(scope: string, r: Run, es: seq<Event>, e: Event, region: nat)
    requires IsFresh(r) && AllAdmitted(r, es) && r.Admits(e) && region < |r.regions|
    requires Asks(scope, Execute(scope, r, es), e, region)
    ensures Execute(scope, r, es).OutcomeOf(scope, e).ByRegion? <==>
            Covers(r.regions[region].decl.counts, Asked(scope, r, es, region) + 1)
  {
    RegionCountsItsEvents(scope, r, es, region);
  }

  // ---------- which events of a run were reported ----------

  /** A violation with the event it came from and, under a region, the number the region gave the event. */
  datatype Origin = Origin(event: Event, number: int, violation: Violation)

  function Reported(scope: string, r: Run, es: seq<Event>): seq<Origin>
    requires AllAdmitted(r, es)
  {
    if es == [] then []
    else
      var init, e := es[..|es| - 1], es[|es| - 1];
      assert e in es;
      var p := Execute(scope, r, init);
      Reported(scope, r, init) + ReportOf(scope, p, e)
  }

  function ReportOf(scope: string, p: Run, e: Event): seq<Origin>
    requires p.Admits(e)
  {
    var v := p.ViolationBy(scope, e);
    var number := if e.region.Some? then p.After(scope, e).regions[e.region.value].calls else 0;
    if v.Some? then [Origin(e, number, v.value)] else []
  }

  function ViolationsIn(os: seq<Origin>): seq<Violation> {
    if os == [] then [] else ViolationsIn(os[..|os| - 1]) + [os[|os| - 1].violation]
  }

  /** The origins are those of the violations of the run, in order. */
  lemma {:induction false} OriginsOfViolations(scope: string, r: Run, es: seq<Event>)
    requires r.violations == [] && AllAdmitted(r, es)
    ensures ViolationsIn(Reported(scope, r, es)) == Execute(scope, r, es).violations
  {
    if es != [] {
      var init, e := es[..|es| - 1], es[|es| - 1];
      assert e in es;
      OriginsOfViolations(scope, r, init);
      var os, p := Reported(scope, r, init), Execute(scope, r, init);
      if p.ViolationBy(scope, e).Some? {
        assert (os + ReportOf(scope, p, e))[..|os|] == os;
      } else {
        assert os + [] == os && p.violations + [] == p.violations;
      }
    }
  }

  /** The region's numbers of the events reported under it, in order. */
  function NumbersUnder(os: seq<Origin>, region: nat): seq<int> {
    if os == [] then []
    else
      var last := os[|os| - 1];
      NumbersUnder(os[..|os| - 1], region) + if last.event.region == Some(region) then [last.number] else []
  }

  // ---------- growth and shrinkage of a region ----------

  /** No Allowlist entry covers an event under the region; options may. */
  predicate NoEntryCovers(scope: string, r: Run, es: seq<Event>, region: nat)
    requires AllAdmitted(r, es)
  {
    es == [] ||
      var init, e := es[..|es| - 1], es[|es| - 1];
      assert e in es;
      && NoEntryCovers(scope, r, init, region)
      && (e.region == Some(region) ==> !Execute(scope, r, init).OutcomeOf(scope, e).ByEntry?)
  }

  /** What a region that was asked `n` times must have led to: of the events under it exactly those it
      numbered past its maximum are reported, in order; the finish reports it exactly when the total stopped
      short of the maximum without being declared, in its place among the regions; nothing is said exactly
      when `n` is declared. */
  predicate RegionSurfaces(scope: string, r: Run, os: seq<Origin>, region: nat, d: Decl, n: nat)
    requires region < |r.regions|
  {
    var short := Short(scope, Op("", ""), d, n);
    && ReportsPast(os, region, d, n)
    && RegionShortfalls(scope, r.regions) ==
        RegionShortfalls(scope, r.regions[..region]) + short + RegionShortfalls(scope, r.regions[region + 1..])
    && (NumbersUnder(os, region) == [] && short == [] <==> n in d.counts)
  }

  /** The number a single report adds. */
  function NumberOf(more: seq<Origin>, region: nat): seq<int> {
    if more != [] && more[0].event.region == Some(region) then [more[0].number] else []
  }

  lemma NumbersSnoc(os: seq<Origin>, more: seq<Origin>, region: nat)
    requires |more| <= 1
    ensures NumbersUnder(os + more, region) == NumbersUnder(os, region) + NumberOf(more, region)
  {
    if more == [] {
      assert os + more == os;
      Nothing(NumbersUnder(os, region));
    } else {
      assert (os + more)[..|os|] == os;
    }
  }

  /** An event is reported under the region exactly when the region is asked and has gone past its maximum. */
  lemma EventExceeds(scope: string, p: Run, e: Event, region: nat, d: Decl, n: nat)
    requires p.Admits(e) && region < |p.regions| && p.regions[region] == Region(d, n) && d.counts != []
    requires e.region == Some(region) ==> !p.OutcomeOf(scope, e).ByEntry?
    ensures |ReportOf(scope, p, e)| <= 1
    ensures NumberOf(ReportOf(scope, p, e), region) ==
            if Asks(scope, p, e, region) && Largest(d.counts) < n + 1 then [n + 1] else []
  {
  }

  /** The numbers reported under the region are those past the maximum. */
  predicate ReportsPast(os: seq<Origin>, region: nat, d: Decl, n: nat) {
    NumbersUnder(os, region) == Range(Largest(d.counts) + 1, n + 1)
  }

  /** One more event keeps it so. */
  lemma EventExtendsExcess(scope: string, p: Run, os: seq<Origin>, e: Event, region: nat, d: Decl, n: nat)
    requires p.Admits(e) && region < |p.regions| && p.regions[region] == Region(d, n) && d.counts != []
    requires e.region == Some(region) ==> !p.OutcomeOf(scope, e).ByEntry?
    requires ReportsPast(os, region, d, n)
    ensures ReportsPast(os + ReportOf(scope, p, e), region, d, if Asks(scope, p, e, region) then n + 1 else n)
  {
    EventExceeds(scope, p, e, region, d, n);
    ExcessSnoc(os, ReportOf(scope, p, e), region, d, n, Asks(scope, p, e, region));
  }

  lemma ExcessSnoc(os: seq<Origin>, more: seq<Origin>, region: nat, d: Decl, n: nat, asked: bool)
    requires |more| <= 1 && ReportsPast(os, region, d, n)
    requires NumberOf(more, region) == if asked && Largest(d.counts) < n + 1 then [n + 1] else []
    ensures ReportsPast(os + more, region, d, if asked then n + 1 else n)
  {
    NumbersSnoc(os, more, region);
    RangeGrows(Largest(d.counts), n, asked);
  }

  lemma {:induction false} ExcessUnderRegion(scope: string, r: Run, es: seq<Event>, region: nat)
    requires IsFresh(r) && AllAdmitted(r, es) && region < |r.regions| && r.regions[region].decl.counts != []
    requires NoEntryCovers(scope, r, es, region)
    ensures ReportsPast(Reported(scope, r, es), region, r.regions[region].decl, Asked(scope, r, es, region))
  {
    if es != [] {
      var init, e := es[..|es| - 1], es[|es| - 1];
      assert e in es;
      ExcessUnderRegion(scope, r, init, region);
      RegionCountsItsEvents(scope, r, init, region);
      var p, os, n := Execute(scope, r, init), Reported(scope, r, init), Asked(scope, r, init, region);
      var d := r.regions[region].decl;
      assert p.regions[region] == Region(d, n);
      EventExtendsExcess(scope, p, os, e, region, d, n);
      assert Reported(scope, r, es) == os + ReportOf(scope, p, e);
      assert Asked(scope, r, es, region) == if Asks(scope, p, e, region) then n + 1 else n;
    }
  }

  lemma {:induction false} ShortfallsConcat(scope: string, a: seq<Region>, b: seq<Region>)
    ensures RegionShortfalls(scope, a + b) == RegionShortfalls(scope, a) + RegionShortfalls(scope, b)
  {
    if b == [] {
      assert a + b == a;
      Nothing(RegionShortfalls(scope, a));
    } else {
      ShortfallsConcat(scope, a, b[..|b| - 1]);
      ConcatSnoc(a, b);
    }
  }

  lemma ShortfallsSplit(scope: string, regions: seq<Region>, i: nat)
    requires i < |regions|
    ensures RegionShortfalls(scope, regions) == RegionShortfalls(scope, regions[..i])
            + RegionShortfall(scope, regions[i]) + RegionShortfalls(scope, regions[i + 1..])
  {
    ShortfallsConcat(scope, regions[..i], [regions[i]]);
    ShortfallsConcat(scope, regions[..i] + [regions[i]], regions[i + 1..]);
    assert regions == regions[..i] + [regions[i]] + regions[i + 1..];
    JustOne(scope, regions[i]);
  }

  lemma JustOne(scope: string, x: Region)
    ensures RegionShortfalls(scope, [x]) == RegionShortfall(scope, x)
  {
    assert [x][..0] == [];
    Nothing(RegionShortfall(scope, x));
  }

  lemma CountedRegionSurfaces(scope: string, r: Run, os: seq<Origin>, region: nat, d: Decl, n: nat)
    requires region < |r.regions| && r.regions[region] == Region(d, n) && d.counts != []
    requires ReportsPast(os, region, d, n)
    ensures RegionSurfaces(scope, r, os, region, d, n)
  {
    ShortfallsSplit(scope, r.regions, region);
    RangeIsEmpty(Largest(d.counts) + 1, n + 1);
  }

  /** Growth and shrinkage of a counted region both surface, over any run whose events under the region are
      not covered by the Allowlist: whatever their operations, whatever options cover some of them, and
      whatever else runs in the scope, the reports depend on how many asked the region alone. */
  lemma RegionGrowthAndShrinkage(scope: string, r: Run, es: seq<Event>, region: nat)
    requires IsFresh(r) && AllAdmitted(r, es) && region < |r.regions| && r.regions[region].decl.counts != []
    requires NoEntryCovers(scope, r, es, region)
    ensures RegionSurfaces(scope, Execute(scope, r, es), Reported(scope, r, es), region, r.regions[region].decl,
                           Asked(scope, r, es, region))
  {
    var r', d, n := Execute(scope, r, es), r.regions[region].decl, Asked(scope, r, es, region);
    RegionCountsItsEvents(scope, r, es, region);
    ExcessUnderRegion(scope, r, es, region);
    assert r'.regions[region] == Region(d, n);
    CountedRegionSurfaces(scope, r', Reported(scope, r, es), region, d, n);
  }
}
